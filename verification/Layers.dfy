/**
 Merging layered configuration, and which layer each setting came from.

 A path is the sequence of keys that leads to a setting. The source writes it as one dotted string;
 the lemmas about `Dotted` say when that loses nothing.
 */
module Layers {
  import opened Machine

  datatype Json =
    | Null
    | Bool(b: bool)
    | Number(n: int)
    | Text(s: string)
    | Array(items: seq<Json>)
    | Object(fields: map<string, Json>)

  datatype LayerId = Defaults | File(name: string) | Environment | Overrides

  datatype Layer = Layer(id: LayerId, values: Json)

  type Path = seq<string>

  const EMPTY := Object(map[])

  /** Objects merge key by key; anything else replaces. */
  function Merge(target: Json, overlay: Json): Json
    decreases overlay
  {
    if target.Object? && overlay.Object? then
      Object(map k | k in target.fields.Keys + overlay.fields.Keys ::
               if k !in overlay.fields then target.fields[k]
               else if k !in target.fields then overlay.fields[k]
               else Merge(target.fields[k], overlay.fields[k]))
    else overlay
  }

  function MergeAll(layers: seq<Layer>): Json {
    if layers == [] then EMPTY
    else Merge(MergeAll(layers[..|layers| - 1]), layers[|layers| - 1].values)
  }

  // ----- reading a document by path -----

  function At(value: Json, path: Path): Option<Json>
    decreases |path|
  {
    if path == [] then Some(value)
    else if value.Object? && path[0] in value.fields then At(value.fields[path[0]], path[1..])
    else None
  }

  /** What is attributed: anything but a non-empty object. */
  predicate Settled(value: Json) {
    !value.Object? || value.fields == map[]
  }

  predicate IsLeaf(value: Json, path: Path) {
    At(value, path).Some? && Settled(At(value, path).value)
  }

  /** Whether merging `overlay` into `target` records the path. */
  predicate Writes(target: Json, overlay: Json, path: Path)
    decreases |path|
  {
    if target.Object? && overlay.Object? then
      && path != [] && path[0] in overlay.fields
      && if path[0] in target.fields then Writes(target.fields[path[0]], overlay.fields[path[0]], path[1..])
         else IsLeaf(overlay.fields[path[0]], path[1..])
    else IsLeaf(overlay, path)
  }

  // ----- the dotted form of a path -----

  /** What the source calls a path: what its keys add up to, and a name for the root. */
  function Dotted(path: Path): string {
    if Written(path) == "" then "<root>" else Written(path)
  }

  /** Keys added one by one; nothing separates a key from an empty beginning. */
  function Written(path: Path): string {
    if path == [] then ""
    else
      var n := |path| - 1;
      var before := Written(path[..n]);
      if before == "" then path[n] else before + "." + path[n]
  }

  /** A key that is written as itself and nothing else. */
  predicate SafeKey(key: string) {
    key != "" && '.' !in key
  }

  /** A path whose keys are all safe, and that is not written like the root. */
  predicate Safe(path: Path) {
    (forall i :: 0 <= i < |path| ==> SafeKey(path[i])) && path != ["<root>"]
  }

  /** Paths written alike stay so below. */
  lemma {:induction false} WrittenAlike(p: Path, q: Path, after: Path)
    requires Written(p) == Written(q)
    ensures Written(p + after) == Written(q + after)
    decreases |after|
  {
    if after == [] {
      assert p + after == p && q + after == q;
    } else {
      var n := |after| - 1;
      WrittenAlike(p, q, after[..n]);
      assert (p + after)[..|p| + n] == p + after[..n] && (q + after)[..|q| + n] == q + after[..n];
    }
  }

  lemma {:induction false} WrittenLast(path: Path, key: string)
    ensures Written(path + [key]) == if Written(path) == "" then key else Written(path) + "." + key
  {
    assert (path + [key])[..|path|] == path;
  }

  /**
   A key that holds a dot is written like two keys, wherever it stands: two different settings share one
   dotted path, and so one attribution. The one dot that does this no harm begins a path.
   */
  lemma {:induction false} DotsCollide(above: Path, a: string, b: string, below: Path)
    requires a != "" || Written(above) != ""
    ensures above + [a + "." + b] + below != above + [a, b] + below
    ensures Dotted(above + [a + "." + b] + below) == Dotted(above + [a, b] + below)
  {
    WrittenLast(above, a + "." + b);
    WrittenLast(above, a);
    WrittenLast(above + [a], b);
    assert above + [a, b] == above + [a] + [b];
    if Written(above) != "" {
      var w := Written(above);
      assert w + "." + (a + "." + b) == (w + "." + a) + "." + b;
    }
    WrittenAlike(above + [a + "." + b], above + [a, b], below);
    assert |above + [a + "." + b] + below| < |above + [a, b] + below|;
  }

  /** An empty key at the top is not written at all. */
  lemma {:induction false} EmptyKeyVanishes(path: Path)
    ensures Written([""] + path) == Written(path)
  {
    WrittenLast([], "");
    assert [] + [""] == [""] && [] + path == path;
    WrittenAlike([""], [], path);
  }

  /** So every path shares its name with another. */
  lemma {:induction false} EmptyKeysCollide(path: Path)
    ensures [""] + path != path && Dotted([""] + path) == Dotted(path)
  {
    EmptyKeyVanishes(path);
    assert |[""] + path| > |path|;
  }

  // ----- exactly which paths are written alike -----

  /** A key cut at its dots. */
  function Cut(s: string): (pieces: seq<string>)
    ensures |pieces| >= 1
  {
    if s == "" then [""]
    else
      var rest := Cut(s[1..]);
      if s[0] == '.' then [""] + rest else [[s[0]] + rest[0]] + rest[1..]
  }

  /** All the pieces of a path. */
  function Pieces(path: Path): seq<string> {
    if path == [] then [] else Pieces(path[..|path| - 1]) + Cut(path[|path| - 1])
  }

  /** A path without the empty keys it begins with. */
  function Trimmed(path: Path): Path {
    if path != [] && path[0] == "" then Trimmed(path[1..]) else path
  }

  lemma {:induction false} CutAtDot(a: string, b: string)
    ensures Cut(a + "." + b) == Cut(a) + Cut(b)
  {
    var s := a + "." + b;
    if a == "" {
      assert s[1..] == b;
    } else {
      assert s[1..] == a[1..] + "." + b;
      CutAtDot(a[1..], b);
    }
  }

  lemma {:induction false} CutIsInjective(s: string, t: string)
    requires Cut(s) == Cut(t)
    ensures s == t
  {
    if s != "" && t != "" {
      var x, y := Cut(s[1..]), Cut(t[1..]);
      assert s[0] == '.' ==> Cut(s)[0] == "" && Cut(s)[1..] == x;
      assert t[0] == '.' ==> Cut(t)[0] == "" && Cut(t)[1..] == y;
      assert s[0] != '.' ==> Cut(s)[0] == [s[0]] + x[0] && Cut(s)[1..] == x[1..];
      assert t[0] != '.' ==> Cut(t)[0] == [t[0]] + y[0] && Cut(t)[1..] == y[1..];
      if s[0] != '.' {
        assert Cut(s)[0][0] == s[0] && Cut(t)[0][0] == t[0];
        assert Cut(s)[0][1..] == x[0] && Cut(t)[0][1..] == y[0];
        assert x == [x[0]] + x[1..] && y == [y[0]] + y[1..];
      }
      CutIsInjective(s[1..], t[1..]);
      assert s == [s[0]] + s[1..] && t == [t[0]] + t[1..];
    }
  }

  /** Past its leading empty keys, a path is written as its pieces joined. */
  lemma {:induction false} WrittenCuts(path: Path)
    requires path != [] && path[0] != ""
    ensures Written(path) != "" && Cut(Written(path)) == Pieces(path)
  {
    var n := |path| - 1;
    if n == 0 {
      assert path[..0] == [];
    } else {
      WrittenCuts(path[..n]);
      CutAtDot(Written(path[..n]), path[n]);
    }
  }

  lemma {:induction false} WrittenTrimmed(path: Path)
    ensures Written(path) == Written(Trimmed(path))
  {
    if path != [] && path[0] == "" {
      EmptyKeyVanishes(path[1..]);
      assert path == [""] + path[1..];
      WrittenTrimmed(path[1..]);
    }
  }

  lemma {:induction false} TrimmedStarts(path: Path)
    ensures Trimmed(path) != [] ==> Trimmed(path)[0] != ""
  {
    if path != [] && path[0] == "" {
      TrimmedStarts(path[1..]);
    }
  }

  /** Two paths come to the same text exactly when they have the same pieces. */
  lemma {:induction false} WrittenExactly(p: Path, q: Path)
    ensures Written(p) == Written(q) <==> Pieces(Trimmed(p)) == Pieces(Trimmed(q))
    ensures Written(p) == "" <==> Trimmed(p) == []
  {
    var a, b := Trimmed(p), Trimmed(q);
    WrittenTrimmed(p);
    WrittenTrimmed(q);
    TrimmedStarts(p);
    TrimmedStarts(q);
    if a != [] { WrittenCuts(a); }
    if b != [] { WrittenCuts(b); }
    if a != [] && b != [] && Pieces(a) == Pieces(b) {
      CutIsInjective(Written(a), Written(b));
    }
  }

  /** A path written like the root's name is that one key. */
  lemma {:induction false} WrittenLikeRoot(p: Path)
    ensures Written(p) == "<root>" <==> Trimmed(p) == ["<root>"]
  {
    var a := Trimmed(p);
    WrittenTrimmed(p);
    TrimmedStarts(p);
    if |a| > 1 {
      WrittenCuts(a[..|a| - 1]);
      assert Written(a)[|Written(a[..|a| - 1])|] == '.';
    } else if |a| == 1 {
      assert a == [a[0]] && a[..0] == [];
    }
  }

  /**
   Exactly which paths share a name: those that, with leading empty keys left out, have the same pieces once every
   key is cut at its dots; and the root with the one key that spells its name.
   */
  lemma {:induction false} DottedExactly(p: Path, q: Path)
    ensures Dotted(p) == Dotted(q) <==>
              || Pieces(Trimmed(p)) == Pieces(Trimmed(q))
              || (Trimmed(p) == [] && Trimmed(q) == ["<root>"])
              || (Trimmed(p) == ["<root>"] && Trimmed(q) == [])
  {
    WrittenExactly(p, q);
    WrittenExactly(q, p);
    WrittenLikeRoot(p);
    WrittenLikeRoot(q);
  }

  lemma {:induction false} DotlessIsWhole(key: string)
    requires '.' !in key
    ensures Cut(key) == [key]
  {
    if key != "" {
      DotlessIsWhole(key[1..]);
      assert [key[0]] + key[1..] == key;
    }
  }

  lemma {:induction false} SafeIsItsPieces(path: Path)
    requires forall i :: 0 <= i < |path| ==> SafeKey(path[i])
    ensures Pieces(path) == path && Trimmed(path) == path
  {
    if path != [] {
      var n := |path| - 1;
      SafeIsItsPieces(path[..n]);
      DotlessIsWhole(path[n]);
      assert path == path[..n] + [path[n]];
    }
  }

  /** Two safe paths written the same are the same path. */
  lemma {:induction false} DottedIsInjective(p: Path, q: Path)
    requires Safe(p) && Safe(q) && Dotted(p) == Dotted(q)
    ensures p == q
  {
    DottedExactly(p, q);
    SafeIsItsPieces(p);
    SafeIsItsPieces(q);
  }

  // ----- which keys a configuration can hold -----

  /** What validation lets a secret be called; the other keys are field names, which are of this kind too. */
  predicate UsableName(name: string) {
    name != "" && forall i :: 0 <= i < |name| ==> UsableChar(name[i])
  }

  predicate UsableChar(c: char) {
    'a' <= c <= 'z' || 'A' <= c <= 'Z' || '0' <= c <= '9' || c == '_' || c == '-'
  }

  /** By code points: a hyphen, a digit, a capital, an underscore, or a small letter. */
  lemma {:induction false} UsableMeans(name: string)
    ensures UsableName(name) <==>
              && name != ""
              && forall i :: 0 <= i < |name| ==>
                   var c := name[i] as int;
                   c == 45 || 48 <= c <= 57 || 65 <= c <= 90 || c == 95 || 97 <= c <= 122
  {
  }

  /** A configuration whose keys all pass. */
  ghost predicate Validated(value: Json) {
    forall path :: At(value, path).Some? ==> forall i :: 0 <= i < |path| ==> UsableName(path[i])
  }

  lemma {:induction false} UsableIsSafe(path: Path)
    requires forall i :: 0 <= i < |path| ==> UsableName(path[i])
    ensures Safe(path)
  {
    assert !UsableChar('.') && !UsableName("<root>") by {
      assert !UsableChar("<root>"[0]);
    }
    assert path != [] ==> path[0] != "<root>";
  }

  /** No two settings of a configuration that passes validation share a name. */
  lemma {:induction false} ValidatedIsSafe(value: Json)
    requires Validated(value)
    ensures SafeDoc(value)
    ensures forall p, q {:trigger Dotted(p), Dotted(q)} ::
              At(value, p).Some? && At(value, q).Some? && Dotted(p) == Dotted(q) ==> p == q
  {
    forall path | At(value, path).Some? ensures Safe(path) {
      UsableIsSafe(path);
    }
    forall p, q | At(value, p).Some? && At(value, q).Some? && Dotted(p) == Dotted(q) ensures p == q {
      DottedIsInjective(p, q);
    }
  }

  // ----- the attribution map, and the merge that keeps it -----

  ghost predicate AllSafe(byPath: map<Path, LayerId>) {
    forall p :: p in byPath ==> Safe(p)
  }

  /** The layer that wrote each path. `byPath` is the same map before its paths are written with dots. */
  class Attribution {
    var entries: map<string, LayerId>
    ghost var byPath: map<Path, LayerId>

    ghost predicate Valid()
      reads this
    {
      && (forall p :: p in byPath ==> Dotted(p) in entries)
      && (forall s :: s in entries ==> exists p :: p in byPath && Dotted(p) == s && byPath[p] == entries[s])
    }

    constructor ()
      ensures Valid() && byPath == map[]
    {
      entries, byPath := map[], map[];
    }

    method Record(path: Path, layer: LayerId)
      requires Valid()
      modifies this
      ensures Valid() && byPath == old(byPath)[path := layer]
    {
      entries := entries[Dotted(path) := layer];
      byPath := byPath[path := layer];
      forall s | s in entries
        ensures exists p :: p in byPath && Dotted(p) == s && byPath[p] == entries[s]
      {
        if s == Dotted(path) {
          assert path in byPath;
        } else {
          var p :| p in old(byPath) && Dotted(p) == s && old(byPath)[p] == old(entries)[s];
          assert p in byPath;
        }
      }
    }

    /** Among safe paths the dotted lookup is exact. */
    method SourceOf(path: Path) returns (r: Option<LayerId>)
      requires Valid()
      ensures AllSafe(byPath) && Safe(path) ==> r == if path in byPath then Some(byPath[path]) else None
      ensures path in byPath ==> r.Some?
    {
      if Dotted(path) !in entries {
        return None;
      }
      ghost var p :| p in byPath && Dotted(p) == Dotted(path) && byPath[p] == entries[Dotted(path)];
      if AllSafe(byPath) && Safe(path) {
        DottedIsInjective(p, path);
      }
      return Some(entries[Dotted(path)]);
    }
  }

  /** A path at or below `base` whose rest satisfies the test. */
  ghost predicate Below(base: Path, path: Path) {
    |path| >= |base| && path[..|base|] == base
  }

  /** What recording the leaves of a value under `base` records. */
  ghost function LeavesFrom(value: Json, base: Path): iset<Path> {
    iset p | Below(base, p) && IsLeaf(value, p[|base|..])
  }

  /** What merging under `base` records. */
  ghost function WritesFrom(target: Json, overlay: Json, base: Path): iset<Path> {
    iset p | Below(base, p) && Writes(target, overlay, p[|base|..])
  }

  /** Exactly these paths were recorded for the layer, and nothing else changed. */
  ghost predicate Recorded(before: map<Path, LayerId>, after: map<Path, LayerId>, layer: LayerId, written: iset<Path>) {
    && (forall p :: p in after <==> p in before || p in written)
    && (forall p :: p in after ==> after[p] == if p in written then layer else before[p])
  }

  /** The part of a set of paths whose key just below `base` is among some keys. */
  ghost function Through(paths: iset<Path>, base: Path, keys: set<string>): iset<Path> {
    iset p | p in paths && |p| > |base| && p[|base|] in keys
  }

  lemma {:induction false} RecordedTwice(a: map<Path, LayerId>, b: map<Path, LayerId>, c: map<Path, LayerId>,
                                         layer: LayerId, first: iset<Path>, second: iset<Path>)
    requires Recorded(a, b, layer, first) && Recorded(b, c, layer, second)
    ensures Recorded(a, c, layer, first + second)
  {
  }

  lemma {:induction false} BelowChild(base: Path, key: string, p: Path)
    ensures Below(base + [key], p) <==> Below(base, p) && |p| > |base| && p[|base|] == key
    ensures Below(base + [key], p) ==> p[|base|..] != [] && p[|base|..][0] == key && p[|base|..][1..] == p[|base| + 1..]
  {
    if |p| > |base| {
      assert p[..|base| + 1] == p[..|base|] + [p[|base|]];
    }
  }

  /** The leaves of an object, one more key at a time. */
  lemma {:induction false} LeavesByKey(value: Json, base: Path, keys: set<string>, key: string)
    requires value.Object? && key in value.fields
    ensures Through(LeavesFrom(value, base), base, keys + {key})
         == Through(LeavesFrom(value, base), base, keys) + LeavesFrom(value.fields[key], base + [key])
  {
    forall p
      ensures p in Through(LeavesFrom(value, base), base, {key}) <==> p in LeavesFrom(value.fields[key], base + [key])
    {
      BelowChild(base, key, p);
    }
    var all := LeavesFrom(value, base);
    assert Through(all, base, keys + {key}) == Through(all, base, keys) + Through(all, base, {key});
  }

  /** What merging two objects records, one more overlay key at a time. */
  lemma {:induction false} WritesByKey(target: Json, overlay: Json, base: Path, keys: set<string>, key: string)
    requires target.Object? && overlay.Object? && key in overlay.fields
    ensures Through(WritesFrom(target, overlay, base), base, keys + {key})
         == Through(WritesFrom(target, overlay, base), base, keys)
            + (if key in target.fields then WritesFrom(target.fields[key], overlay.fields[key], base + [key])
               else LeavesFrom(overlay.fields[key], base + [key]))
  {
    var all := WritesFrom(target, overlay, base);
    var child := if key in target.fields then WritesFrom(target.fields[key], overlay.fields[key], base + [key])
                 else LeavesFrom(overlay.fields[key], base + [key]);
    forall p ensures p in Through(all, base, {key}) <==> p in child {
      BelowChild(base, key, p);
    }
    assert Through(all, base, keys + {key}) == Through(all, base, keys) + Through(all, base, {key});
  }

  /** Going through every key goes through everything. */
  lemma {:induction false} ThroughAll(target: Json, overlay: Json, base: Path)
    ensures overlay.Object? && overlay.fields != map[] ==>
              Through(LeavesFrom(overlay, base), base, overlay.fields.Keys) == LeavesFrom(overlay, base)
    ensures target.Object? && overlay.Object? ==>
              Through(WritesFrom(target, overlay, base), base, overlay.fields.Keys) == WritesFrom(target, overlay, base)
  {
    forall p | p in LeavesFrom(overlay, base) && overlay.Object? && overlay.fields != map[]
      ensures p in Through(LeavesFrom(overlay, base), base, overlay.fields.Keys)
    {
      assert p[|base|..] != [];
      assert p[|base|..][0] == p[|base|];
    }
    forall p | p in WritesFrom(target, overlay, base) && target.Object? && overlay.Object?
      ensures p in Through(WritesFrom(target, overlay, base), base, overlay.fields.Keys)
    {
      assert p[|base|..] != [];
      assert p[|base|..][0] == p[|base|];
    }
  }

  lemma {:induction false} LeavesOfSettled(value: Json, base: Path)
    requires Settled(value)
    ensures LeavesFrom(value, base) == iset{base}
  {
    forall p ensures p in LeavesFrom(value, base) <==> p == base {
      if p == base {
        assert p[|base|..] == [];
      } else if Below(base, p) {
        assert p == p[..|base|] + p[|base|..];
        assert p[|base|..] != [];
      }
    }
  }

  /** Where attributing an object stands with some keys still to do. */
  ghost predicate Attributing(was: map<Path, LayerId>, byPath: map<Path, LayerId>, layer: LayerId, value: Json,
                              base: Path, todo: set<string>)
    requires value.Object?
  {
    && todo <= value.fields.Keys
    && Recorded(was, byPath, layer, Through(LeavesFrom(value, base), base, value.fields.Keys - todo))
  }

  lemma {:induction false} AttributesOn(was: map<Path, LayerId>, before: map<Path, LayerId>, after: map<Path, LayerId>,
                                        layer: LayerId, value: Json, base: Path, todo: set<string>, key: string)
    requires value.Object? && key in todo && Attributing(was, before, layer, value, base, todo)
    requires Recorded(before, after, layer, LeavesFrom(value.fields[key], base + [key]))
    ensures Attributing(was, after, layer, value, base, todo - {key})
  {
    var keys := value.fields.Keys - todo;
    assert value.fields.Keys - (todo - {key}) == keys + {key};
    LeavesByKey(value, base, keys, key);
    RecordedTwice(was, before, after, layer, Through(LeavesFrom(value, base), base, keys),
                  LeavesFrom(value.fields[key], base + [key]));
  }

  lemma {:induction false} AttributingEnds(was: map<Path, LayerId>, byPath: map<Path, LayerId>, layer: LayerId,
                                           value: Json, base: Path)
    requires value.Object? && value.fields != map[] && Attributing(was, byPath, layer, value, base, {})
    ensures Recorded(was, byPath, layer, LeavesFrom(value, base))
  {
    assert value.fields.Keys - {} == value.fields.Keys;
    ThroughAll(value, value, base);
  }

  /** Record the layer for each leaf a new value brings. Keys are taken in any order. */
  method AttributeSubtree(value: Json, layer: LayerId, path: Path, attribution: Attribution)
    requires attribution.Valid()
    modifies attribution
    ensures attribution.Valid()
    ensures Recorded(old(attribution.byPath), attribution.byPath, layer, LeavesFrom(value, path))
    decreases value
  {
    if value.Object? && value.fields != map[] {
      ghost var was := attribution.byPath;
      var todo := value.fields.Keys;
      while todo != {}
        invariant attribution.Valid() && todo <= value.fields.Keys
        invariant Attributing(was, attribution.byPath, layer, value, path, todo)
      {
        var key :| key in todo;
        ghost var before := attribution.byPath;
        AttributeSubtree(value.fields[key], layer, path + [key], attribution);
        AttributesOn(was, before, attribution.byPath, layer, value, path, todo, key);
        todo := todo - {key};
      }
      AttributingEnds(was, attribution.byPath, layer, value, path);
    } else {
      LeavesOfSettled(value, path);
      attribution.Record(path, layer);
    }
  }

  /** One more overlay key merged and recorded. */
  lemma {:induction false} OneMoreKey(a: map<Path, LayerId>, b: map<Path, LayerId>, c: map<Path, LayerId>,
                                      layer: LayerId, target: Json, overlay: Json, base: Path, keys: set<string>,
                                      key: string)
    requires target.Object? && overlay.Object? && key in overlay.fields
    requires Recorded(a, b, layer, Through(WritesFrom(target, overlay, base), base, keys))
    requires Recorded(b, c, layer,
                      if key in target.fields then WritesFrom(target.fields[key], overlay.fields[key], base + [key])
                                   else LeavesFrom(overlay.fields[key], base + [key]))
    ensures Recorded(a, c, layer, Through(WritesFrom(target, overlay, base), base, keys + {key}))
  {
    WritesByKey(target, overlay, base, keys, key);
    RecordedTwice(a, b, c, layer, Through(WritesFrom(target, overlay, base), base, keys),
                  if key in target.fields then WritesFrom(target.fields[key], overlay.fields[key], base + [key])
                  else LeavesFrom(overlay.fields[key], base + [key]));
  }

  /** The target's fields with some overlay keys merged in. */
  ghost predicate Partly(fields: map<string, Json>, target: Json, overlay: Json, keys: set<string>)
    requires target.Object? && overlay.Object? && keys <= overlay.fields.Keys
  {
    && fields.Keys == target.fields.Keys + keys
    && forall k :: k in fields ==>
         fields[k] == if k !in keys then target.fields[k]
                      else if k in target.fields then Merge(target.fields[k], overlay.fields[k]) else overlay.fields[k]
  }

  lemma {:induction false} PartlyGrows(fields: map<string, Json>, target: Json, overlay: Json, keys: set<string>,
                                       key: string, child: Json)
    requires target.Object? && overlay.Object? && keys <= overlay.fields.Keys && key in overlay.fields
    requires Partly(fields, target, overlay, keys)
    requires child == if key in target.fields then Merge(target.fields[key], overlay.fields[key])
              else overlay.fields[key]
    ensures Partly(fields[key := child], target, overlay, keys + {key})
  {
  }

  /** Where a merge of two objects stands with some overlay keys still to do. */
  ghost predicate Merging(was: map<Path, LayerId>, byPath: map<Path, LayerId>, layer: LayerId,
                          target: Json, overlay: Json, base: Path, todo: set<string>, fields: map<string, Json>)
    requires target.Object? && overlay.Object?
  {
    && todo <= overlay.fields.Keys && Partly(fields, target, overlay, overlay.fields.Keys - todo)
    && Recorded(was, byPath, layer, Through(WritesFrom(target, overlay, base), base, overlay.fields.Keys - todo))
  }

  lemma {:induction false} MergingStarts(was: map<Path, LayerId>, layer: LayerId, target: Json, overlay: Json,
                                         base: Path)
    requires target.Object? && overlay.Object?
    ensures Merging(was, was, layer, target, overlay, base, overlay.fields.Keys, target.fields)
  {
  }

  lemma {:induction false} MergesOn(was: map<Path, LayerId>, before: map<Path, LayerId>, after: map<Path, LayerId>,
                                    layer: LayerId, target: Json, overlay: Json, base: Path, todo: set<string>,
                                    key: string, fields: map<string, Json>, child: Json)
    requires target.Object? && overlay.Object? && key in todo
    requires Merging(was, before, layer, target, overlay, base, todo, fields)
    requires child == if key in fields then Merge(fields[key], overlay.fields[key]) else overlay.fields[key]
    requires Recorded(before, after, layer,
                      if key in fields then WritesFrom(fields[key], overlay.fields[key], base + [key])
                      else LeavesFrom(overlay.fields[key], base + [key]))
    ensures Merging(was, after, layer, target, overlay, base, todo - {key}, fields[key := child])
  {
    var keys := overlay.fields.Keys - todo;
    assert overlay.fields.Keys - (todo - {key}) == keys + {key};
    PartlyGrows(fields, target, overlay, keys, key, child);
    OneMoreKey(was, before, after, layer, target, overlay, base, keys, key);
  }

  lemma {:induction false} MergingEnds(was: map<Path, LayerId>, byPath: map<Path, LayerId>, layer: LayerId,
                                       target: Json, overlay: Json, base: Path, fields: map<string, Json>)
    requires target.Object? && overlay.Object?
    requires Merging(was, byPath, layer, target, overlay, base, {}, fields)
    ensures Object(fields) == Merge(target, overlay)
    ensures Recorded(was, byPath, layer, WritesFrom(target, overlay, base))
  {
    assert overlay.fields.Keys - {} == overlay.fields.Keys;
    ThroughAll(target, overlay, base);
    assert fields == Merge(target, overlay).fields;
  }

  lemma {:induction false} ReplacingWrites(target: Json, overlay: Json, base: Path)
    requires !(target.Object? && overlay.Object?)
    ensures WritesFrom(target, overlay, base) == LeavesFrom(overlay, base)
  {
    forall p ensures p in WritesFrom(target, overlay, base) <==> p in LeavesFrom(overlay, base) {
    }
  }

  /** Merge one value into another, recording what the overlay wrote. Keys are taken in any order. */
  method MergeValue(target: Json, overlay: Json, layer: LayerId, path: Path, attribution: Attribution)
    returns (merged: Json)
    requires attribution.Valid()
    modifies attribution
    ensures attribution.Valid()
    ensures merged == Merge(target, overlay)
    ensures Recorded(old(attribution.byPath), attribution.byPath, layer, WritesFrom(target, overlay, path))
    decreases overlay, 1
  {
    if target.Object? && overlay.Object? {
      merged := MergeObjects(target, overlay, layer, path, attribution);
    } else {
      AttributeSubtree(overlay, layer, path, attribution);
      ReplacingWrites(target, overlay, path);
      merged := overlay;
    }
  }

  /** An object into an object: one overlay key after another. */
  method MergeObjects(target: Json, overlay: Json, layer: LayerId, path: Path, attribution: Attribution)
    returns (merged: Json)
    requires attribution.Valid() && target.Object? && overlay.Object?
    modifies attribution
    ensures attribution.Valid()
    ensures merged == Merge(target, overlay)
    ensures Recorded(old(attribution.byPath), attribution.byPath, layer, WritesFrom(target, overlay, path))
    decreases overlay, 0
  {
    ghost var was := attribution.byPath;
    var fields, todo := target.fields, overlay.fields.Keys;
    MergingStarts(was, layer, target, overlay, path);
    while todo != {}
      invariant attribution.Valid() && todo <= overlay.fields.Keys
      invariant Merging(was, attribution.byPath, layer, target, overlay, path, todo, fields)
    {
      var key :| key in todo;
      ghost var before := attribution.byPath;
      var child := MergeKey(fields, key, overlay.fields[key], layer, path + [key], attribution);
      MergesOn(was, before, attribution.byPath, layer, target, overlay, path, todo, key, fields, child);
      fields, todo := fields[key := child], todo - {key};
    }
    MergingEnds(was, attribution.byPath, layer, target, overlay, path, fields);
    merged := Object(fields);
  }

  /** Merge one overlay key into an object: into what is already under it, or as something new. */
  method MergeKey(fields: map<string, Json>, key: string, overlay: Json, layer: LayerId, path: Path,
                  attribution: Attribution)
    returns (child: Json)
    requires attribution.Valid()
    modifies attribution
    ensures attribution.Valid()
    ensures child == if key in fields then Merge(fields[key], overlay) else overlay
    ensures Recorded(old(attribution.byPath), attribution.byPath, layer,
                     if key in fields then WritesFrom(fields[key], overlay, path) else LeavesFrom(overlay, path))
    decreases overlay, 2
  {
    if key in fields {
      child := MergeValue(fields[key], overlay, layer, path, attribution);
    } else {
      child := overlay;
      AttributeSubtree(overlay, layer, path, attribution);
    }
  }

  /** The layer last recorded for a path. */
  ghost function SourceFor(layers: seq<Layer>, path: Path): Option<LayerId> {
    if layers == [] then None
    else
      var n := |layers| - 1;
      if Writes(MergeAll(layers[..n]), layers[n].values, path) then Some(layers[n].id) else SourceFor(layers[..n], path)
  }

  /** The attribution a stack of layers leaves. */
  ghost predicate Attributes(layers: seq<Layer>, byPath: map<Path, LayerId>) {
    forall p :: (p in byPath <==> SourceFor(layers, p).Some?)
        && (p in byPath ==> SourceFor(layers, p) == Some(byPath[p]))
  }

  method MergeLayers(layers: seq<Layer>) returns (merged: Json, attribution: Attribution)
    ensures fresh(attribution) && attribution.Valid()
    ensures merged == MergeAll(layers)
    ensures Attributes(layers, attribution.byPath)
  {
    merged := Object(map[]);
    attribution := new Attribution();
    for i := 0 to |layers|
      invariant fresh(attribution) && attribution.Valid()
      invariant merged == MergeAll(layers[..i])
      invariant Attributes(layers[..i], attribution.byPath)
    {
      ghost var before := attribution.byPath;
      ghost var target := merged;
      merged := MergeValue(merged, layers[i].values, layers[i].id, [], attribution);
      assert layers[..i + 1][..i] == layers[..i];
      forall p ensures p in WritesFrom(target, layers[i].values, []) <==> Writes(target, layers[i].values, p) {
        assert p[0..] == p && p[..0] == [];
      }
    }
    assert layers[..|layers|] == layers;
  }

  // ----- what the attribution says -----

  /** A leaf of a merge was either written by the overlay just so, or was there before and left alone. */
  lemma {:induction false} LeafComesFrom(target: Json, overlay: Json, path: Path)
    requires IsLeaf(Merge(target, overlay), path)
    ensures Writes(target, overlay, path) ==> At(overlay, path) == At(Merge(target, overlay), path)
    ensures !Writes(target, overlay, path) ==>
              && At(target, path) == At(Merge(target, overlay), path)
              && (!At(target, path).value.Object? ==> At(overlay, path).None?)
    decreases |path|
  {
    if target.Object? && overlay.Object? {
      if path == [] {
        assert Merge(target, overlay).fields.Keys == target.fields.Keys + overlay.fields.Keys;
        assert Merge(target, overlay).fields == map[] ==> target.fields.Keys == {} && overlay.fields.Keys == {};
        assert target.fields == map[] && overlay.fields == map[];
      } else if path[0] in target.fields && path[0] in overlay.fields {
        LeafComesFrom(target.fields[path[0]], overlay.fields[path[0]], path[1..]);
      }
    }
  }

  /**
   Every leaf of the merged document but the root is attributed, to a layer that holds exactly that value
   there. For a leaf that is not an empty object, no later layer says anything at that path.
   */
  lemma {:induction false} EveryLeafIsAttributed(layers: seq<Layer>, path: Path) returns (i: nat)
    requires path != [] && IsLeaf(MergeAll(layers), path)
    ensures i < |layers| && SourceFor(layers, path) == Some(layers[i].id)
    ensures At(layers[i].values, path) == At(MergeAll(layers), path)
    ensures !At(MergeAll(layers), path).value.Object? ==>
              forall j :: i < j < |layers| ==> At(layers[j].values, path).None?
  {
    var n := |layers| - 1;
    LeafComesFrom(MergeAll(layers[..n]), layers[n].values, path);
    if Writes(MergeAll(layers[..n]), layers[n].values, path) {
      i := n;
    } else {
      i := EveryLeafIsAttributed(layers[..n], path);
    }
  }

  /** Whether an overlay takes a leaf away without writing it: by replacing what it is in, or by filling it. */
  predicate Disturbs(overlay: Json, path: Path)
    decreases |path|
  {
    if path == [] then !Settled(overlay)
    else !overlay.Object? || (path[0] in overlay.fields && Disturbs(overlay.fields[path[0]], path[1..]))
  }

  lemma {:induction false} LeafSurvives(target: Json, overlay: Json, path: Path)
    requires IsLeaf(target, path) && !Writes(target, overlay, path)
    ensures IsLeaf(Merge(target, overlay), path) <==> !Disturbs(overlay, path)
    decreases |path|
  {
    if target.Object? && overlay.Object? {
      if path == [] {
        assert Merge(target, overlay).fields.Keys == overlay.fields.Keys;
      } else if path[0] in overlay.fields {
        LeafSurvives(target.fields[path[0]], overlay.fields[path[0]], path[1..]);
      }
    }
  }

  lemma {:induction false} WrittenIsLeaf(target: Json, overlay: Json, path: Path)
    requires Writes(target, overlay, path)
    ensures IsLeaf(Merge(target, overlay), path)
    decreases |path|
  {
    if target.Object? && overlay.Object? && path[0] in target.fields {
      WrittenIsLeaf(target.fields[path[0]], overlay.fields[path[0]], path[1..]);
    }
  }

  lemma {:induction false} OneMoreLayer(target: Json, overlay: Json, path: Path)
    ensures Writes(target, overlay, path) ==> IsLeaf(Merge(target, overlay), path)
    ensures !Writes(target, overlay, path) ==>
              (IsLeaf(Merge(target, overlay), path) <==> IsLeaf(target, path) && !Disturbs(overlay, path))
  {
    if Writes(target, overlay, path) {
      WrittenIsLeaf(target, overlay, path);
    } else if IsLeaf(target, path) {
      LeafSurvives(target, overlay, path);
    } else if IsLeaf(Merge(target, overlay), path) {
      LeafComesFrom(target, overlay, path);
    }
  }

  /** A stack without its top has the same layers below. */
  lemma {:induction false} Shorter(layers: seq<Layer>)
    requires layers != []
    ensures forall j :: 0 <= j < |layers| - 1 ==>
              layers[..|layers| - 1][..j] == layers[..j] && layers[..|layers| - 1][j] == layers[j]
  {
  }

  /**
   Exactly when an attribution is current. A path that has one was last written by the layer it names; it
   is still a leaf of the merged document if and only if no later layer replaces an object it lies in or
   puts a non-empty object in its place.
   */
  lemma {:induction false} EntryIsCurrentExactly(layers: seq<Layer>, path: Path) returns (i: nat)
    requires SourceFor(layers, path).Some?
    ensures i < |layers| && SourceFor(layers, path) == Some(layers[i].id)
    ensures Writes(MergeAll(layers[..i]), layers[i].values, path)
    ensures forall j :: i < j < |layers| ==> !Writes(MergeAll(layers[..j]), layers[j].values, path)
    ensures IsLeaf(MergeAll(layers), path) <==> forall j :: i < j < |layers| ==> !Disturbs(layers[j].values, path)
  {
    var n := |layers| - 1;
    OneMoreLayer(MergeAll(layers[..n]), layers[n].values, path);
    if Writes(MergeAll(layers[..n]), layers[n].values, path) {
      i := n;
    } else {
      i := EntryIsCurrentExactly(layers[..n], path);
      Shorter(layers);
    }
  }

  lemma {:induction false} EmptyObjectsFill()
    ensures var layers := [Layer(Defaults, Object(map["x" := Object(map[])])),
                           Layer(Overrides, Object(map["x" := Object(map["y" := Null])]))];
            SourceFor(layers, ["x"]) == Some(Defaults) && !IsLeaf(MergeAll(layers), ["x"])
  {
    var l0 := Layer(Defaults, Object(map["x" := Object(map[])]));
    var l1 := Layer(Overrides, Object(map["x" := Object(map["y" := Null])]));
    assert [l0, l1][..1] == [l0] && [l0][..0] == [];
    assert ["x"][1..] == [];
    assert MergeAll([l0]) == l0.values by {
      assert MergeAll([l0]).fields == l0.values.fields;
    }
    assert "y" in Merge(l0.values, l1.values).fields["x"].fields;
  }

  /** Attribution goes one way only: an entry can outlive the setting it was recorded for. */
  lemma {:induction false} AttributionCanBeStale()
    ensures var layers := [Layer(Defaults, Object(map["x" := Object(map["y" := Null])])),
                           Layer(Overrides, Object(map["x" := Null]))];
            SourceFor(layers, ["x", "y"]) == Some(Defaults) && At(MergeAll(layers), ["x", "y"]).None?
    ensures var layers := [Layer(Defaults, Object(map["x" := Object(map[])])),
                           Layer(Overrides, Object(map["x" := Object(map["y" := Null])]))];
            SourceFor(layers, ["x"]) == Some(Defaults) && !IsLeaf(MergeAll(layers), ["x"])
  {
    EmptyObjectsFill();
    var l0 := Layer(Defaults, Object(map["x" := Object(map["y" := Null])]));
    var l1 := Layer(Overrides, Object(map["x" := Null]));
    assert [l0, l1][..1] == [l0] && [l0][..0] == [];
    assert ["x", "y"][1..] == ["y"] && ["y"][1..] == [];
    assert MergeAll([l0]) == l0.values by {
      assert MergeAll([l0]).fields == l0.values.fields;
    }
    assert IsLeaf(l0.values.fields["x"], ["y"]);
    assert At(MergeAll([l0, l1]), ["x"]) == Some(Null);
  }

  lemma {:induction false} WritesAreThere(target: Json, overlay: Json, path: Path)
    requires Writes(target, overlay, path)
    ensures At(overlay, path).Some?
    decreases |path|
  {
    if target.Object? && overlay.Object? && path[0] in target.fields {
      WritesAreThere(target.fields[path[0]], overlay.fields[path[0]], path[1..]);
    }
  }

  /** Every path of a document can be told apart in its dotted form. */
  ghost predicate SafeDoc(value: Json) {
    forall path :: At(value, path).Some? ==> Safe(path)
  }

  lemma {:induction false} SourcesAreSafe(layers: seq<Layer>, path: Path)
    requires forall i :: 0 <= i < |layers| ==> SafeDoc(layers[i].values)
    requires SourceFor(layers, path).Some?
    ensures Safe(path)
  {
    var n := |layers| - 1;
    if Writes(MergeAll(layers[..n]), layers[n].values, path) {
      WritesAreThere(MergeAll(layers[..n]), layers[n].values, path);
    } else {
      SourcesAreSafe(layers[..n], path);
    }
  }

  // ----- explaining -----

  datatype Setting = Setting(path: Path, value: Json, source: LayerId, isDefault: bool)

  /** Exactly these paths, each once, with the value the document has there. */
  ghost predicate Collected(leaves: seq<(Path, Json)>, value: Json, base: Path, paths: iset<Path>) {
    && (forall i :: 0 <= i < |leaves| ==>
          leaves[i].0 in paths && Below(base, leaves[i].0) && At(value, leaves[i].0[|base|..]) == Some(leaves[i].1))
    && (forall p :: p in paths ==> exists i :: 0 <= i < |leaves| && leaves[i].0 == p)
    && (forall i, j :: 0 <= i < j < |leaves| ==> leaves[i].0 != leaves[j].0)
  }

  /** The leaves of a child are leaves of what it is in. */
  lemma {:induction false} CollectedAbove(more: seq<(Path, Json)>, value: Json, base: Path, key: string)
    requires value.Object? && key in value.fields
    requires Collected(more, value.fields[key], base + [key], LeavesFrom(value.fields[key], base + [key]))
    ensures Collected(more, value, base, LeavesFrom(value.fields[key], base + [key]))
  {
    forall i | 0 <= i < |more|
      ensures Below(base, more[i].0) && At(value, more[i].0[|base|..]) == Some(more[i].1)
    {
      BelowChild(base, key, more[i].0);
    }
  }

  lemma {:induction false} CollectedBoth(a: seq<(Path, Json)>, b: seq<(Path, Json)>, value: Json, base: Path,
                                         p: iset<Path>, q: iset<Path>)
    requires Collected(a, value, base, p) && Collected(b, value, base, q) && p !! q
    ensures Collected(a + b, value, base, p + q)
  {
    var all := a + b;
    assert forall i :: 0 <= i < |a| ==> all[i] == a[i];
    assert forall i :: 0 <= i < |b| ==> all[|a| + i] == b[i];
    forall r | r in p + q ensures exists i :: 0 <= i < |all| && all[i].0 == r {
      if r in p {
        var i :| 0 <= i < |a| && a[i].0 == r;
        assert all[i].0 == r;
      } else {
        var i :| 0 <= i < |b| && b[i].0 == r;
        assert all[|a| + i].0 == r;
      }
    }
    forall i, j | 0 <= i < j < |all| ensures all[i].0 != all[j].0 {
      assert i < |a| ==> all[i].0 in p;
      assert j >= |a| ==> all[j].0 in q;
    }
  }

  /** One more key's leaves, told apart from the rest by that key. */
  lemma {:induction false} CollectsOn(leaves: seq<(Path, Json)>, more: seq<(Path, Json)>, value: Json, base: Path,
                                      todo: set<string>, key: string)
    requires value.Object? && key in todo && todo <= value.fields.Keys
    requires Collected(leaves, value, base, Through(LeavesFrom(value, base), base, value.fields.Keys - todo))
    requires Collected(more, value.fields[key], base + [key], LeavesFrom(value.fields[key], base + [key]))
    ensures Collected(leaves + more, value, base,
              Through(LeavesFrom(value, base), base, value.fields.Keys - (todo - {key})))
  {
    var keys := value.fields.Keys - todo;
    var old', new' := Through(LeavesFrom(value, base), base, keys), LeavesFrom(value.fields[key], base + [key]);
    assert value.fields.Keys - (todo - {key}) == keys + {key};
    LeavesByKey(value, base, keys, key);
    CollectedAbove(more, value, base, key);
    forall p | p in new' ensures p !in old' {
      BelowChild(base, key, p);
    }
    CollectedBoth(leaves, more, value, base, old', new');
  }

  /** Walk a value, collecting every leaf below `path` once. Keys are taken in any order. */
  method CollectLeaves(value: Json, path: Path) returns (leaves: seq<(Path, Json)>)
    ensures Collected(leaves, value, path, LeavesFrom(value, path))
    decreases value
  {
    if value.Object? && value.fields != map[] {
      leaves := [];
      ghost var all := LeavesFrom(value, path);
      var todo := value.fields.Keys;
      assert value.fields.Keys - todo == {};
      while todo != {}
        invariant todo <= value.fields.Keys
        invariant Collected(leaves, value, path, Through(all, path, value.fields.Keys - todo))
      {
        var key :| key in todo;
        var more := CollectLeaves(value.fields[key], path + [key]);
        CollectsOn(leaves, more, value, path, todo, key);
        leaves := leaves + more;
        todo := todo - {key};
      }
      assert value.fields.Keys - {} == value.fields.Keys;
      ThroughAll(value, value, path);
    } else {
      LeavesOfSettled(value, path);
      assert path[|path|..] == [];
      leaves := [(path, value)];
      assert leaves[0].0 == path;
    }
  }

  /** Documents whose keys can all be told apart once joined. */
  ghost predicate SafeDocs(layers: seq<Layer>) {
    forall i :: 0 <= i < |layers| ==> SafeDoc(layers[i].values)
  }

  lemma {:induction false} EveryLeafIsSourced(layers: seq<Layer>, byPath: map<Path, LayerId>)
    requires Attributes(layers, byPath) && SafeDocs(layers)
    ensures AllSafe(byPath)
    ensures forall p :: IsLeaf(MergeAll(layers), p) && p != [] ==> p in byPath
  {
    forall p | p in byPath ensures Safe(p) {
      SourcesAreSafe(layers, p);
    }
    forall p | IsLeaf(MergeAll(layers), p) && p != [] ensures p in byPath {
      var _ := EveryLeafIsAttributed(layers, p);
    }
  }

  /** A setting made for a leaf from what the attribution holds. */
  ghost predicate MadeFrom(byPath: map<Path, LayerId>, leaf: (Path, Json), setting: Setting) {
    && setting.path == leaf.0 && setting.value == leaf.1
    && setting.isDefault == (setting.source == Defaults)
    && (AllSafe(byPath) && Safe(leaf.0) ==> setting.source == if leaf.0 in byPath then byPath[leaf.0] else Defaults)
  }

  method MakeSetting(attribution: Attribution, leaf: (Path, Json)) returns (setting: Setting)
    requires attribution.Valid()
    ensures MadeFrom(attribution.byPath, leaf, setting)
  {
    var (path, value) := leaf;
    var found := attribution.SourceOf(path);
    var source := if found.Some? then found.value else Defaults;
    setting := Setting(path, value, source, source == Defaults);
  }

  /** Settings made for the first of some leaves. */
  ghost predicate Made(byPath: map<Path, LayerId>, leaves: seq<(Path, Json)>, settings: seq<Setting>) {
    |settings| <= |leaves| && forall i :: 0 <= i < |settings| ==> MadeFrom(byPath, leaves[i], settings[i])
  }

  lemma {:induction false} OneMoreMade(byPath: map<Path, LayerId>, leaves: seq<(Path, Json)>, settings: seq<Setting>,
                                       setting: Setting)
    requires Made(byPath, leaves, settings) && |settings| < |leaves|
    requires MadeFrom(byPath, leaves[|settings|], setting)
    ensures Made(byPath, leaves, settings + [setting])
  {
  }

  method MakeSettings(attribution: Attribution, leaves: seq<(Path, Json)>) returns (settings: seq<Setting>)
    requires attribution.Valid()
    ensures |settings| == |leaves|
    ensures forall i :: 0 <= i < |leaves| ==> MadeFrom(attribution.byPath, leaves[i], settings[i])
  {
    settings := [];
    for k := 0 to |leaves|
      invariant |settings| == k && Made(attribution.byPath, leaves, settings)
    {
      var setting := MakeSetting(attribution, leaves[k]);
      OneMoreMade(attribution.byPath, leaves, settings, setting);
      settings := settings + [setting];
    }
  }

  /** What is said of a setting: the layer that last wrote its path, or the defaults when none did. */
  ghost predicate Sourced(layers: seq<Layer>, setting: Setting) {
    setting.source == match SourceFor(layers, setting.path) case Some(id) => id case None => Defaults
  }

  /** A leaf of the merged document, below its root. */
  predicate IsSetting(layers: seq<Layer>, path: Path) {
    path != [] && IsLeaf(MergeAll(layers), path)
  }

  lemma {:induction false} SettingsAreSourced(layers: seq<Layer>, encoded: Json, byPath: map<Path, LayerId>,
                                              settings: seq<Setting>, leaves: seq<(Path, Json)>)
    requires Attributes(layers, byPath) && SafeDocs(layers) && SafeDoc(encoded) && |settings| == |leaves|
    requires forall i :: 0 <= i < |leaves| ==> MadeFrom(byPath, leaves[i], settings[i])
    requires forall i :: 0 <= i < |leaves| ==> IsLeaf(encoded, settings[i].path)
    ensures forall i :: 0 <= i < |settings| ==> Sourced(layers, settings[i])
    ensures forall i :: 0 <= i < |settings| && IsSetting(layers, settings[i].path) ==>
              SourceFor(layers, settings[i].path) == Some(settings[i].source)
  {
    EveryLeafIsSourced(layers, byPath);
  }

  /** One setting a leaf covers every leaf. */
  lemma {:induction false} SettingsCover(encoded: Json, leaves: seq<(Path, Json)>, settings: seq<Setting>)
    requires |settings| == |leaves| && Collected(leaves, encoded, [], LeavesFrom(encoded, []))
    requires forall i :: 0 <= i < |leaves| ==> settings[i].path == leaves[i].0 && settings[i].value == leaves[i].1
    ensures forall i :: 0 <= i < |settings| ==> At(encoded, settings[i].path) == Some(settings[i].value)
    ensures forall p :: IsLeaf(encoded, p) <==> exists i :: 0 <= i < |settings| && settings[i].path == p
  {
    forall p ensures p in LeavesFrom(encoded, []) <==> IsLeaf(encoded, p) {
      assert p[0..] == p && p[..0] == [];
    }
    forall i | 0 <= i < |settings| ensures At(encoded, settings[i].path) == Some(settings[i].value) {
      assert leaves[i].0[0..] == leaves[i].0;
    }
    forall p | IsLeaf(encoded, p) ensures exists i :: 0 <= i < |settings| && settings[i].path == p {
      var i :| 0 <= i < |leaves| && leaves[i].0 == p;
      assert settings[i].path == p;
    }
  }

  /**
   Explain every setting of a configuration. `encoded` is the typed configuration written out again, which
   may hold settings no layer mentions. With keys that can be told apart, each setting names the layer that
   last wrote it or falls back to the defaults, and no leaf of the merged document but a bare root falls back.
   */
  method Explain(layers: seq<Layer>, encoded: Json) returns (settings: seq<Setting>)
    ensures forall p :: IsLeaf(encoded, p) <==> exists i :: 0 <= i < |settings| && settings[i].path == p
    ensures forall i :: 0 <= i < |settings| ==>
              At(encoded, settings[i].path) == Some(settings[i].value)
              && settings[i].isDefault == (settings[i].source == Defaults)
    ensures SafeDocs(layers) && SafeDoc(encoded) ==>
              && (forall i :: 0 <= i < |settings| ==> Sourced(layers, settings[i]))
              && forall i :: 0 <= i < |settings| && IsSetting(layers, settings[i].path) ==>
                   SourceFor(layers, settings[i].path) == Some(settings[i].source)
  {
    var merged, attribution := MergeLayers(layers);
    var leaves := CollectLeaves(encoded, []);
    settings := MakeSettings(attribution, leaves);
    SettingsCover(encoded, leaves, settings);
    if SafeDocs(layers) && SafeDoc(encoded) {
      SettingsAreSourced(layers, encoded, attribution.byPath, settings, leaves);
    }
  }

  // ----- the algebra of merging -----

  /** A document merged into itself is unchanged. */
  lemma {:induction false} MergeSelf(d: Json)
    ensures Merge(d, d) == d
    decreases d
  {
    if d.Object? {
      forall k | k in d.fields ensures Merge(d.fields[k], d.fields[k]) == d.fields[k] {
        MergeSelf(d.fields[k]);
      }
      assert Merge(d, d).fields == d.fields;
    }
  }

  /** Merging the same overlay twice is merging it once. */
  lemma {:induction false} MergeTwice(target: Json, overlay: Json)
    ensures Merge(Merge(target, overlay), overlay) == Merge(target, overlay)
    decreases overlay
  {
    if target.Object? && overlay.Object? {
      var once := Merge(target, overlay);
      forall k | k in overlay.fields ensures Merge(once.fields[k], overlay.fields[k]) == once.fields[k] {
        if k in target.fields {
          MergeTwice(target.fields[k], overlay.fields[k]);
        } else {
          MergeSelf(overlay.fields[k]);
        }
      }
      assert Merge(once, overlay).fields == once.fields;
    } else {
      MergeSelf(overlay);
    }
  }

  /** An object beneath adds nothing an overlay does not already decide. */
  predicate Decides(overlay: Json, beneath: Json)
    decreases overlay
  {
    beneath.Object? && overlay.Object? ==>
      && beneath.fields.Keys <= overlay.fields.Keys
      && forall k :: k in beneath.fields ==> Decides(overlay.fields[k], beneath.fields[k])
  }

  lemma {:induction false} DecidesExactly(beneath: Json, overlay: Json)
    ensures Merge(beneath, overlay) == overlay <==> Decides(overlay, beneath)
    decreases overlay
  {
    if beneath.Object? && overlay.Object? {
      var m := Merge(beneath, overlay).fields;
      assert m.Keys == beneath.fields.Keys + overlay.fields.Keys;
      forall k | k in beneath.fields && k in overlay.fields
        ensures m[k] == overlay.fields[k] <==> Decides(overlay.fields[k], beneath.fields[k])
      {
        DecidesExactly(beneath.fields[k], overlay.fields[k]);
      }
      if Decides(overlay, beneath) {
        assert m == overlay.fields;
      }
    }
  }

  /** No path holds objects in the first and third but something else in the second, unless the third decides there. */
  predicate Associates(a: Json, b: Json, c: Json)
    decreases c
  {
    a.Object? && c.Object? ==>
      if b.Object? then
        forall k :: k in a.fields && k in b.fields && k in c.fields ==>
            Associates(a.fields[k], b.fields[k], c.fields[k])
      else Decides(c, a)
  }

  /** Merging is associative exactly where only an object stands between two objects, or nothing shows through. */
  lemma {:induction false} AssociatesExactly(a: Json, b: Json, c: Json)
    ensures Merge(Merge(a, b), c) == Merge(a, Merge(b, c)) <==> Associates(a, b, c)
    decreases c
  {
    if a.Object? && c.Object? {
      if b.Object? {
        var left, right := Merge(Merge(a, b), c).fields, Merge(a, Merge(b, c)).fields;
        assert left.Keys == right.Keys;
        forall k | k in left
          ensures left[k] == right[k] <==>
                    (k in a.fields && k in b.fields && k in c.fields ==>
                        Associates(a.fields[k], b.fields[k], c.fields[k]))
        {
          if k in a.fields && k in b.fields && k in c.fields {
            AssociatesExactly(a.fields[k], b.fields[k], c.fields[k]);
          }
        }
        assert left == right <==> forall k :: k in left ==> left[k] == right[k];
      } else {
        DecidesExactly(a, c);
      }
    }
  }

  /** Documents that agree on which common paths are objects. */
  ghost predicate SameShape(a: Json, b: Json)
    decreases a
  {
    (a.Object? <==> b.Object?) &&
    (a.Object? && b.Object? ==> forall k :: k in a.fields && k in b.fields ==> SameShape(a.fields[k], b.fields[k]))
  }

  /** Three layers that agree on shape can be merged in either grouping. */
  lemma {:induction false} SameShapesAssociate(a: Json, b: Json, c: Json)
    requires SameShape(a, b) && SameShape(a, c)
    ensures Merge(Merge(a, b), c) == Merge(a, Merge(b, c))
    decreases c
  {
    SameShapesPair(a, b, c);
    AssociatesExactly(a, b, c);
  }

  lemma {:induction false} SameShapesPair(a: Json, b: Json, c: Json)
    requires SameShape(a, b) && SameShape(a, c)
    ensures Associates(a, b, c)
    decreases c
  {
    if a.Object? {
      forall k | k in a.fields && k in b.fields && k in c.fields
        ensures Associates(a.fields[k], b.fields[k], c.fields[k])
      {
        SameShapesPair(a.fields[k], b.fields[k], c.fields[k]);
      }
    }
  }

  /** The smallest stack whose grouping matters. */
  lemma {:induction false} GroupingCanMatter()
    ensures var a := Object(map["x" := Object(map["y" := Number(1)])]);
            var b := Object(map["x" := Number(5)]);
            var c := Object(map["x" := Object(map["z" := Number(2)])]);
            Merge(Merge(a, b), c) != Merge(a, Merge(b, c))
  {
    var a := Object(map["x" := Object(map["y" := Number(1)])]);
    var b := Object(map["x" := Number(5)]);
    var c := Object(map["x" := Object(map["z" := Number(2)])]);
    AssociatesExactly(a, b, c);
    assert "y" in a.fields["x"].fields && "y" !in c.fields["x"].fields;
    assert !Decides(c.fields["x"], a.fields["x"]);
    assert !Associates(a.fields["x"], b.fields["x"], c.fields["x"]);
    assert "x" in a.fields && "x" in b.fields && "x" in c.fields;
  }
}
