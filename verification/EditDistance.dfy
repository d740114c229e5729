/** Levenshtein distance over two rolling rows, and the suggestions it is used for. */
module EditDistance {
  import opened Machine

  function Min(a: nat, b: nat): nat {
    if a <= b then a else b
  }

  /** The distance, by the last characters of each text. */
  function Lev(a: seq<char>, b: seq<char>): nat
    decreases |a| + |b|
  {
    if a == [] then |b|
    else if b == [] then |a|
    else
      var a', b' := a[..|a| - 1], b[..|b| - 1];
      Min(Min(Lev(a', b) + 1, Lev(a, b') + 1), Lev(a', b') + if a[|a| - 1] == b[|b| - 1] then 0 else 1)
  }

  /** No distance exceeds the longer length, so no addition below can saturate. */
  lemma {:induction false} LevAtMost(a: seq<char>, b: seq<char>)
    ensures Lev(a, b) <= if |a| >= |b| then |a| else |b|
    decreases |a| + |b|
  {
    if a != [] && b != [] {
      LevAtMost(a[..|a| - 1], b[..|b| - 1]);
    }
  }

  /** One cell of the table from its three neighbours, in saturating arithmetic that never saturates. */
  lemma {:induction false} Cell(a: seq<char>, b: seq<char>, i: nat, j: nat)
    requires i < |a| < U64_MAX && j < |b| < U64_MAX
    ensures var cost := if a[i] != b[j] then 1 else 0;
            Lev(a[..i + 1], b[..j + 1])
            == Min(Min(SatAdd(Lev(a[..i], b[..j + 1]), 1), SatAdd(Lev(a[..i + 1], b[..j]), 1)),
                   SatAdd(Lev(a[..i], b[..j]), cost))
  {
    assert a[..i + 1][..i] == a[..i] && b[..j + 1][..j] == b[..j];
    LevAtMost(a[..i], b[..j + 1]);
    LevAtMost(a[..i + 1], b[..j]);
    LevAtMost(a[..i], b[..j]);
  }

  /** The first cells of a row: the distances from `a` to each prefix of `b`. */
  ghost predicate Row(cells: seq<nat>, a: seq<char>, b: seq<char>) {
    |cells| <= |b| + 1 && forall j :: 0 <= j < |cells| ==> cells[j] == Lev(a, b[..j])
  }

  lemma {:induction false} RowGrows(cells: seq<nat>, cell: nat, a: seq<char>, b: seq<char>)
    requires Row(cells, a, b) && |cells| <= |b| && cell == Lev(a, b[..|cells|])
    ensures Row(cells + [cell], a, b)
  {
  }

  /** The inner loop: the row for one more character of `left`, from the row before it. */
  method NextRow(left: seq<char>, right: seq<char>, i: nat, previous: array<nat>, current: array<nat>)
    requires |left| < U64_MAX && |right| < U64_MAX && i < |left|
    requires previous != current && previous.Length == current.Length == |right| + 1
    requires Row(previous[..], left[..i], right)
    modifies current
    ensures Row(current[..], left[..i + 1], right)
  {
    current[0] := SatAdd(i, 1);
    assert current[..1] == [Lev(left[..i + 1], right[..0])];
    for j := 0 to |right|
      invariant Row(current[..j + 1], left[..i + 1], right)
    {
      var substitutionCost := if left[i] != right[j] then 1 else 0;
      var deletion := previous[j + 1];
      var insertion := current[j];
      var substitution := SatAdd(previous[j], substitutionCost);
      assert deletion == previous[..][j + 1] && insertion == current[..j + 1][j] && previous[j] == previous[..][j];
      Cell(left, right, i, j);
      ghost var cells := current[..j + 1];
      current[j + 1] := Min(Min(SatAdd(deletion, 1), SatAdd(insertion, 1)), substitution);
      RowGrows(cells, current[j + 1], left[..i + 1], right);
      assert current[..j + 2] == cells + [current[j + 1]];
    }
    assert current[..] == current[..|right| + 1];
  }

  /**
   The two-row form. Every read is in bounds, so the source's fallback values are never used; lengths
   are those a vector of characters can have, so no addition saturates.
   */
  method Distance(left: seq<char>, right: seq<char>) returns (distance: nat)
    requires |left| < U64_MAX && |right| < U64_MAX
    ensures distance == Lev(left, right)
  {
    if left == [] {
      return |right|;
    }
    if right == [] {
      return |left|;
    }
    var n := |right| + 1;
    var previous := new nat[n](j => j);
    var current := new nat[n](j => 0);
    for i := 0 to |left|
      invariant previous != current && previous.Length == current.Length == n
      invariant fresh(previous) && fresh(current)
      invariant Row(previous[..], left[..i], right)
    {
      NextRow(left, right, i, previous, current);
      previous, current := current, previous;
    }
    assert left[..|left|] == left && right[..|right|] == right;
    assert previous[n - 1] == previous[..][n - 1];
    return previous[n - 1];
  }

  // ----- the distance is the length of the shortest edit script -----

  /** An edit script, read from the ends of the two texts towards their beginnings. */
  datatype Script =
    | Done
    | Keep(rest: Script)
    | Substitute(c: char, rest: Script)
    | Insert(c: char, rest: Script)
    | Delete(rest: Script)

  /** What a script makes of a text, if it fits it. */
  function Apply(s: Script, a: seq<char>): Option<seq<char>> {
    match s
    case Done => if a == [] then Some([]) else None
    case Keep(rest) => if a == [] then None else Ending(Apply(rest, a[..|a| - 1]), a[|a| - 1])
    case Substitute(c, rest) => if a == [] then None else Ending(Apply(rest, a[..|a| - 1]), c)
    case Insert(c, rest) => Ending(Apply(rest, a), c)
    case Delete(rest) => if a == [] then None else Apply(rest, a[..|a| - 1])
  }

  function Ending(text: Option<seq<char>>, c: char): Option<seq<char>> {
    if text.Some? then Some(text.value + [c]) else None
  }

  function Edits(s: Script): nat {
    match s
    case Done => 0
    case Keep(rest) => Edits(rest)
    case Substitute(_, rest) => 1 + Edits(rest)
    case Insert(_, rest) => 1 + Edits(rest)
    case Delete(rest) => 1 + Edits(rest)
  }

  /** Some script reaches `b` from `a` in exactly the distance. */
  lemma {:induction false} SomeScriptIsThatShort(a: seq<char>, b: seq<char>) returns (s: Script)
    ensures Apply(s, a) == Some(b) && Edits(s) == Lev(a, b)
    decreases |a| + |b|
  {
    assert b != [] ==> b == b[..|b| - 1] + [b[|b| - 1]];
    if a == [] && b == [] {
      s := Done;
    } else if a == [] {
      var rest := SomeScriptIsThatShort(a, b[..|b| - 1]);
      s := Insert(b[|b| - 1], rest);
    } else if b == [] {
      var rest := SomeScriptIsThatShort(a[..|a| - 1], b);
      s := Delete(rest);
    } else {
      var a', b', x, y := a[..|a| - 1], b[..|b| - 1], a[|a| - 1], b[|b| - 1];
      if Lev(a, b) == Lev(a', b) + 1 {
        var rest := SomeScriptIsThatShort(a', b);
        s := Delete(rest);
      } else if Lev(a, b) == Lev(a, b') + 1 {
        var rest := SomeScriptIsThatShort(a, b');
        s := Insert(y, rest);
      } else {
        var rest := SomeScriptIsThatShort(a', b');
        s := if x == y then Keep(rest) else Substitute(y, rest);
      }
    }
  }

  /** One more character at the end of either text changes the distance by at most one. */
  lemma {:induction false} LevStep(a: seq<char>, b: seq<char>, c: char)
    ensures Lev(a + [c], b) <= Lev(a, b) + 1
    ensures Lev(a, b + [c]) <= Lev(a, b) + 1
  {
    assert (a + [c])[..|a|] == a && (b + [c])[..|b|] == b;
  }

  /** One more character at the end of both texts adds at most one, and nothing if it is the same. */
  lemma {:induction false} LevBoth(a: seq<char>, b: seq<char>, c: char, d: char)
    ensures Lev(a + [c], b + [d]) <= Lev(a, b) + if c == d then 0 else 1
  {
    assert (a + [c])[..|a|] == a && (b + [d])[..|b|] == b;
  }

  /** No script that reaches `b` from `a` is shorter than the distance. */
  lemma {:induction false} NoScriptIsShorter(s: Script, a: seq<char>, b: seq<char>)
    requires Apply(s, a) == Some(b)
    ensures Lev(a, b) <= Edits(s)
  {
    var m := |a| - 1;
    match s
    case Done =>
    case Keep(rest) =>
      var b' := Apply(rest, a[..m]).value;
      NoScriptIsShorter(rest, a[..m], b');
      LevBoth(a[..m], b', a[m], a[m]);
      assert a[..m] + [a[m]] == a;
    case Substitute(c, rest) =>
      var b' := Apply(rest, a[..m]).value;
      NoScriptIsShorter(rest, a[..m], b');
      LevBoth(a[..m], b', a[m], c);
      assert a[..m] + [a[m]] == a;
    case Insert(c, rest) =>
      var b' := Apply(rest, a).value;
      NoScriptIsShorter(rest, a, b');
      LevStep(a, b', c);
    case Delete(rest) =>
      NoScriptIsShorter(rest, a[..m], b);
      LevStep(a[..m], b, a[m]);
      assert a[..m] + [a[m]] == a;
  }

  /** Two scripts one after the other, as one script with no more edits. */
  lemma {:induction false} Compose(s: Script, t: Script, a: seq<char>, b: seq<char>, c: seq<char>) returns (u: Script)
    requires Apply(s, a) == Some(b) && Apply(t, b) == Some(c)
    ensures Apply(u, a) == Some(c) && Edits(u) <= Edits(s) + Edits(t)
    decreases s, t
  {
    if t.Insert? {
      var rest := Compose(s, t.rest, a, b, Apply(t.rest, b).value);
      u := Insert(t.c, rest);
    } else if s.Delete? {
      var rest := Compose(s.rest, t, a[..|a| - 1], b, c);
      u := Delete(rest);
    } else if s.Done? {
      u := Done;
    } else {
      var a' := if s.Insert? then a else a[..|a| - 1];
      var b' := b[..|b| - 1];
      assert Apply(s.rest, a') == Some(b');
      var c' := Apply(t.rest, b').value;
      var rest := Compose(s.rest, t.rest, a', b', c');
      if t.Delete? {
        u := if s.Insert? then rest else Delete(rest);
      } else {
        var y := c[|c| - 1];
        u := if s.Insert? then Insert(y, rest) else if s.Keep? && t.Keep? then Keep(rest) else Substitute(y, rest);
      }
    }
  }

  /** A script read backwards: deletions become insertions and the text it consumed is put back. */
  lemma {:induction false} Invert(s: Script, a: seq<char>, b: seq<char>) returns (t: Script)
    requires Apply(s, a) == Some(b)
    ensures Apply(t, b) == Some(a) && Edits(t) == Edits(s)
  {
    var m := |a| - 1;
    match s
    case Done => t := Done;
    case Keep(rest) =>
      var b' := Apply(rest, a[..m]).value;
      assert b[..|b| - 1] == b' && a == a[..m] + [a[m]];
      var back := Invert(rest, a[..m], b');
      t := Keep(back);
    case Substitute(c, rest) =>
      var b' := Apply(rest, a[..m]).value;
      assert b[..|b| - 1] == b' && a == a[..m] + [a[m]];
      var back := Invert(rest, a[..m], b');
      t := Substitute(a[m], back);
    case Insert(c, rest) =>
      var b' := Apply(rest, a).value;
      assert b[..|b| - 1] == b';
      var back := Invert(rest, a, b');
      t := Delete(back);
    case Delete(rest) =>
      assert a == a[..m] + [a[m]];
      var back := Invert(rest, a[..m], b);
      t := Insert(a[m], back);
  }

  /** A script with no edits changes nothing. */
  lemma {:induction false} NoEditsNoChange(s: Script, a: seq<char>)
    requires Edits(s) == 0 && Apply(s, a).Some?
    ensures Apply(s, a) == Some(a)
  {
    if s.Keep? {
      assert a == a[..|a| - 1] + [a[|a| - 1]];
      NoEditsNoChange(s.rest, a[..|a| - 1]);
    }
  }

  lemma {:induction false} NothingToDo(a: seq<char>)
    ensures Lev(a, a) == 0
  {
    if a != [] {
      NothingToDo(a[..|a| - 1]);
    }
  }

  /** The distance is a metric: zero exactly on equal texts, symmetric, and no longer than any detour. */
  lemma {:induction false} LevIsMetric(a: seq<char>, b: seq<char>, c: seq<char>)
    ensures Lev(a, b) == 0 <==> a == b
    ensures Lev(a, b) == Lev(b, a)
    ensures Lev(a, c) <= Lev(a, b) + Lev(b, c)
  {
    var ab := SomeScriptIsThatShort(a, b);
    var ba := SomeScriptIsThatShort(b, a);
    var bc := SomeScriptIsThatShort(b, c);
    if Lev(a, b) == 0 {
      NoEditsNoChange(ab, a);
    }
    NothingToDo(a);
    var back := Invert(ab, a, b);
    var forth := Invert(ba, b, a);
    NoScriptIsShorter(back, b, a);
    NoScriptIsShorter(forth, a, b);
    var through := Compose(ab, bc, a, b, c);
    NoScriptIsShorter(through, a, c);
  }

  // ----- suggestions -----

  /** How far a suggestion may be, by the candidate's length in bytes. */
  function Threshold(bytes: nat): nat {
    if bytes <= 4 then 1 else if bytes <= 8 then 2 else 3
  }

  /** Whether one text sorts before another. */
  predicate Before(a: seq<char>, b: seq<char>) {
    if b == [] then false
    else if a == [] then true
    else a[0] < b[0] || (a[0] == b[0] && Before(a[1..], b[1..]))
  }

  lemma {:induction false} BeforeOrders(a: seq<char>, b: seq<char>, c: seq<char>)
    ensures a == b || Before(a, b) || Before(b, a)
    ensures !(Before(a, b) && Before(b, a))
    ensures Before(a, b) && Before(b, c) ==> Before(a, c)
  {
    if a != [] && b != [] {
      assert a[0] == b[0] && a[1..] == b[1..] ==> a == b by {
        assert a == [a[0]] + a[1..] && b == [b[0]] + b[1..];
      }
      BeforeOrders(a[1..], b[1..], if c == [] then [] else c[1..]);
    }
  }

  /** Texts sort as words do: by the first character in which they differ, and a text before those it begins. */
  lemma {:induction false} BeforeMeans(a: seq<char>, b: seq<char>, k: nat)
    requires k <= |a| && k <= |b| && a[..k] == b[..k]
    ensures k == |a| && k < |b| ==> Before(a, b)
    ensures k == |b| ==> !Before(a, b)
    ensures k < |a| && k < |b| && a[k] != b[k] ==> (Before(a, b) <==> a[k] < b[k])
  {
    if k > 0 {
      assert a[0] == a[..k][0] && b[0] == b[..k][0];
      assert a[1..][..k - 1] == a[..k][1..] && b[1..][..k - 1] == b[..k][1..];
      BeforeMeans(a[1..], b[1..], k - 1);
    }
  }

  /** A known field name, and its length in bytes. */
  datatype Candidate = Candidate(name: seq<char>, bytes: nat)

  predicate Plausible(field: seq<char>, c: Candidate) {
    c.name != [] && c.name != field && Lev(field, c.name) <= Threshold(c.bytes)
  }

  /** One edit for a name of up to four bytes, two up to eight, three beyond; never the name itself, or nothing. */
  lemma {:induction false} PlausibleMeans(field: seq<char>, c: Candidate)
    ensures c.bytes <= 4 ==> (Plausible(field, c) <==> c.name != [] && c.name != field && Lev(field, c.name) <= 1)
    ensures 5 <= c.bytes <= 8 ==> (Plausible(field, c) <==> c.name != [] && c.name != field && Lev(field, c.name) <= 2)
    ensures 9 <= c.bytes ==> (Plausible(field, c) <==> c.name != [] && c.name != field && Lev(field, c.name) <= 3)
  {
  }

  /** Nearer, or as near and earlier in order. */
  predicate Better(field: seq<char>, a: seq<char>, b: seq<char>) {
    Lev(field, a) < Lev(field, b) || (Lev(field, a) == Lev(field, b) && Before(a, b))
  }

  /** The nearest plausible candidate, the first in order among equals. */
  function Closest(field: seq<char>, known: seq<Candidate>): Option<seq<char>> {
    if known == [] then None
    else
      var best := Closest(field, known[..|known| - 1]);
      var c := known[|known| - 1];
      if Plausible(field, c) && (best.None? || Better(field, c.name, best.value)) then Some(c.name) else best
  }

  /**
   A suggestion is made exactly when something plausible is known; it is plausible, no plausible name
   beats it, and it is one to three edits away. So the order the names are listed in does not matter.
   */
  lemma {:induction false} ClosestMeans(field: seq<char>, known: seq<Candidate>)
    ensures var best := Closest(field, known);
            && (best.None? <==> forall i :: 0 <= i < |known| ==> !Plausible(field, known[i]))
            && (best.Some? ==>
                  && (exists i :: 0 <= i < |known| && Plausible(field, known[i]) && known[i].name == best.value)
                  && (forall i :: 0 <= i < |known| && Plausible(field, known[i]) ==>
                        !Better(field, known[i].name, best.value))
                  && 1 <= Lev(field, best.value) <= 3)
  {
    if known != [] {
      var n := |known| - 1;
      var c := known[n];
      ClosestMeans(field, known[..n]);
      LevIsMetric(field, c.name, c.name);
      BeforeOrders(c.name, c.name, c.name);
      var best := Closest(field, known[..n]);
      if best.Some? {
        var i :| 0 <= i < n && Plausible(field, known[..n][i]) && known[..n][i].name == best.value;
        assert known[i].name == best.value && Plausible(field, known[i]);
        forall j | 0 <= j < n && Plausible(field, known[j]) && Better(field, c.name, best.value)
          ensures !Better(field, known[j].name, c.name)
        {
          assert known[..n][j] == known[j];
          BeforeOrders(known[j].name, c.name, best.value);
        }
      }
    }
  }

  lemma {:induction false} ClosestIgnoresOrder(field: seq<char>, a: seq<Candidate>, b: seq<Candidate>)
    requires forall c :: c in a <==> c in b
    ensures Closest(field, a) == Closest(field, b)
  {
    ClosestMeans(field, a);
    ClosestMeans(field, b);
    if Closest(field, a).Some? {
      var x := Closest(field, a).value;
      var i :| 0 <= i < |a| && Plausible(field, a[i]) && a[i].name == x;
      assert a[i] in b;
      var y := Closest(field, b).value;
      var j :| 0 <= j < |b| && Plausible(field, b[j]) && b[j].name == y;
      assert b[j] in a;
      BeforeOrders(x, y, x);
    } else {
      assert forall j :: 0 <= j < |b| ==> b[j] in a;
    }
  }
}
