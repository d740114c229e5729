/** Context profiles: single inheritance walked with cycle detection, then applied parent first. */
module Profiles {
  import opened Machine

  datatype Section =
    | Findings | Entities | Claims | Relationships | Sightings | Techniques
    | Clusters | Contradictions | Pivots | Evidence | Markings | Gaps

  const ALL: seq<Section> :=
    [Findings, Entities, Claims, Relationships, Sightings, Techniques,
     Clusters, Contradictions, Pivots, Evidence, Markings, Gaps]

  datatype Preservation = Required | Preferred | Excluded

  type Weight = n: nat | n <= 100

  const NEUTRAL: Weight := 50

  datatype Profile = Profile(
    name: string, description: string, inherits: Option<string>,
    sections: map<Section, Preservation>, weights: map<Section, Weight>, allocation: map<Section, nat>,
    environments: set<string>)

  datatype Error =
    | UnknownParent(profile: string, parent: string)
    | InheritanceCycle(profile: string, chain: seq<string>)
    | Contradictory(profile: string, section: Section)
    | ExcludesFloor(profile: string, section: Section)
    | OverAllocated(profile: string, total: nat)
    | Unnamed

  /** The floor: sections kept whatever a profile says. */
  predicate AlwaysPreserved(s: Section) {
    s.Evidence? || s.Markings? || s.Gaps?
  }

  function PreservationOf(p: Profile, s: Section): Preservation {
    if AlwaysPreserved(s) then Required
    else if s in p.sections then p.sections[s]
    else Preferred
  }

  predicate MayDrop(p: Profile, s: Section) {
    (PreservationOf(p, s).Preferred? || PreservationOf(p, s).Excluded?) && !AlwaysPreserved(s)
  }

  function WeightOf(p: Profile, s: Section): Weight {
    if s in p.weights then p.weights[s] else NEUTRAL
  }

  /** What a profile allocates to some sections. */
  function Allocated(allocation: map<Section, nat>, sections: seq<Section>): nat {
    if sections == [] then 0
    else (if sections[0] in allocation then allocation[sections[0]] else 0) + Allocated(allocation, sections[1..])
  }

  predicate Blank(name: string) {
    forall i :: 0 <= i < |name| ==> IsSpace(name[i])
  }

  /** The first of some sections that is excluded though it may never be dropped. */
  function FloorExcluded(p: Profile, sections: seq<Section>): Option<Section> {
    if sections == [] then None
    else if Lookup(p.sections, sections[0]) == Some(Excluded) && AlwaysPreserved(sections[0]) then Some(sections[0])
    else FloorExcluded(p, sections[1..])
  }

  /** Whether a profile can be satisfied at all. */
  function Validate(p: Profile): Option<Error> {
    if Blank(p.name) then Some(Unnamed)
    else if FloorExcluded(p, ALL).Some? then Some(ExcludesFloor(p.name, FloorExcluded(p, ALL).value))
    else if Allocated(p.allocation, ALL) > 100 then Some(OverAllocated(p.name, Allocated(p.allocation, ALL)))
    else None
  }

  // ----- the chain of ancestors -----

  /** Profiles are stored under their own names. */
  ghost predicate Keyed(profiles: map<string, Profile>) {
    forall n :: n in profiles ==> profiles[n].name == n
  }

  /** The name reached by following `inherits` some number of times, while every step leads somewhere. */
  ghost function Ancestor(profiles: map<string, Profile>, name: string, steps: nat): Option<string> {
    if steps == 0 then Some(name)
    else
      var below := Ancestor(profiles, name, steps - 1);
      if below.Some? && below.value in profiles then profiles[below.value].inherits else None
  }

  /** Following parents leads to a name outside the set. */
  ghost predicate LeavesSet(profiles: map<string, Profile>, name: string) {
    exists k: nat :: Ancestor(profiles, name, k).Some? && Ancestor(profiles, name, k).value !in profiles
  }

  /** Following parents comes back to a name in the set. */
  ghost predicate Revisits(profiles: map<string, Profile>, name: string) {
    exists i: nat, j: nat :: i < j && Ancestor(profiles, name, i).Some?
      && Ancestor(profiles, name, i) == Ancestor(profiles, name, j) && Ancestor(profiles, name, i).value in profiles
  }

  /** Some profiles are the first of the chain: each the parent of the one before, no name twice. */
  ghost predicate Follows(profiles: map<string, Profile>, name: string, chain: seq<Profile>) {
    && (forall i :: 0 <= i < |chain| ==>
          && Ancestor(profiles, name, i) == Some(chain[i].name)
          && chain[i].name in profiles && profiles[chain[i].name] == chain[i])
    && (forall i, j :: 0 <= i < j < |chain| ==> chain[i].name != chain[j].name)
  }

  /** Following parents ends, having passed exactly these profiles. */
  ghost predicate EndsAfter(profiles: map<string, Profile>, name: string, chain: seq<Profile>) {
    chain != [] && Follows(profiles, name, chain) && Ancestor(profiles, name, |chain|).None?
  }

  // ----- the fold: parents first, so the nearest statement wins -----

  function Apply(resolved: Profile, p: Profile): Profile {
    resolved.(description := if p.description != "" then p.description else resolved.description,
              sections := resolved.sections + p.sections,
              weights := resolved.weights + p.weights,
              allocation := resolved.allocation + p.allocation,
              environments := resolved.environments + p.environments)
  }

  function Blankly(name: string): Profile {
    Profile(name, "", None, map[], map[], map[], {})
  }

  /** A chain, child first, applied from its far end. */
  function Folded(name: string, chain: seq<Profile>): Profile {
    if chain == [] then Blankly(name) else Apply(Folded(name, chain[1..]), chain[0])
  }

  function Names(chain: seq<Profile>): (r: seq<string>)
    ensures |r| == |chain| && forall i :: 0 <= i < |chain| ==> r[i] == chain[i].name
  {
    seq(|chain|, i requires 0 <= i < |chain| => chain[i].name)
  }

  /** One more parent followed. */
  lemma {:induction false} FollowsOn(profiles: map<string, Profile>, name: string, chain: seq<Profile>,
                                     current: Profile)
    requires Follows(profiles, name, chain) && current.name !in Names(chain)
    requires current.name in profiles && profiles[current.name] == current
    requires Ancestor(profiles, name, |chain|) == Some(current.name)
    ensures Follows(profiles, name, chain + [current])
    ensures Ancestor(profiles, name, |chain| + 1) == current.inherits
    ensures Names(chain + [current]) == Names(chain) + [current.name]
  {
    assert forall i :: 0 <= i < |chain| ==> Names(chain)[i] == chain[i].name;
  }

  /** Where a walk stands: the profiles passed, their names, and the profile it has come to. */
  ghost predicate Walked(profiles: map<string, Profile>, name: string, chain: seq<Profile>, seen: set<string>,
                         current: Profile) {
    && current.name in profiles && current == profiles[current.name] && seen <= profiles.Keys
    && Follows(profiles, name, chain) && Ancestor(profiles, name, |chain|) == Some(current.name)
    && forall s :: s in seen <==> s in Names(chain)
  }

  /** Passing a profile not seen before; what is left to see shrinks. */
  lemma {:induction false} WalksOn(profiles: map<string, Profile>, name: string, chain: seq<Profile>,
                                   seen: set<string>, current: Profile)
    requires Keyed(profiles) && Walked(profiles, name, chain, seen, current) && current.name !in seen
    ensures var more, all := chain + [current], seen + {current.name};
            && Follows(profiles, name, more) && Ancestor(profiles, name, |more|) == current.inherits
            && (current.inherits.Some? && current.inherits.value in profiles ==>
                  Walked(profiles, name, more, all, profiles[current.inherits.value]))
            && |profiles.Keys - all| < |profiles.Keys - seen|
  {
    FollowsOn(profiles, name, chain, current);
    assert profiles.Keys - (seen + {current.name}) == profiles.Keys - seen - {current.name};
  }

  /** The trail a cycle is reported with: the names in order, the last of them a repeat. */
  ghost predicate Loops(profiles: map<string, Profile>, name: string, trail: seq<string>) {
    && trail != [] && trail[|trail| - 1] in trail[..|trail| - 1]
    && forall i :: 0 <= i < |trail| ==> Ancestor(profiles, name, i) == Some(trail[i])
  }

  /** Following parents comes to a name outside the set, named by this profile, or asked for in the first place. */
  ghost predicate Misses(profiles: map<string, Profile>, name: string, heir: string, parent: string)
  {
    && parent !in profiles
    && ((heir == name && name == parent)
        || exists k: nat ::
             Ancestor(profiles, name, k) == Some(heir) && Ancestor(profiles, name, k + 1) == Some(parent))
  }

  /** Walk the parents, child first, until they end, leave the set, or come back. */
  method Walk(profiles: map<string, Profile>, name: string) returns (r: Result<seq<Profile>, Error>)
    requires Keyed(profiles)
    ensures r.Ok? ==> EndsAfter(profiles, name, r.value) && !Revisits(profiles, name) && !LeavesSet(profiles, name)
    ensures r.Err? ==> r.error.InheritanceCycle? || r.error.UnknownParent?
    ensures r.Err? && r.error.InheritanceCycle? ==>
              r.error.profile == name && Loops(profiles, name, r.error.chain) && Revisits(profiles, name)
                  && !LeavesSet(profiles, name)
    ensures r.Err? && r.error.UnknownParent? ==>
              Misses(profiles, name, r.error.profile, r.error.parent) && LeavesSet(profiles, name)
                  && !Revisits(profiles, name)
  {
    if name !in profiles {
      LeavesHere(profiles, name, []);
      return Err(UnknownParent(name, name));
    }
    var chain: seq<Profile> := [];
    var seen: set<string> := {};
    var current := profiles[name];
    while true
      invariant Walked(profiles, name, chain, seen, current)
      decreases |profiles.Keys - seen|
    {
      if current.name in seen {
        ComesBack(profiles, name, chain, current.name);
        return Err(InheritanceCycle(name, Names(chain) + [current.name]));
      }
      WalksOn(profiles, name, chain, seen, current);
      seen := seen + {current.name};
      chain := chain + [current];
      if current.inherits.None? {
        EndsHere(profiles, name, chain);
        return Ok(chain);
      }
      var parent := current.inherits.value;
      if parent !in profiles {
        LeavesHere(profiles, name, chain);
        assert Ancestor(profiles, name, |chain| - 1) == Some(current.name);
        return Err(UnknownParent(current.name, parent));
      }
      current := profiles[parent];
    }
  }

  /** Apply a chain from its far end, so a child's own rules land last. */
  method Fold(name: string, chain: seq<Profile>) returns (resolved: Profile)
    ensures resolved == Folded(name, chain)
  {
    resolved := Blankly(name);
    var k := |chain|;
    while k > 0
      invariant 0 <= k <= |chain|
      invariant resolved == Folded(name, chain[k..])
    {
      k := k - 1;
      assert chain[k..][1..] == chain[k + 1..];
      var p := chain[k];
      ghost var before := resolved;
      if p.description != "" {
        resolved := resolved.(description := p.description);
      }
      resolved := resolved.(sections := resolved.sections + p.sections);
      resolved := resolved.(weights := resolved.weights + p.weights);
      resolved := resolved.(allocation := resolved.allocation + p.allocation);
      resolved := resolved.(environments := resolved.environments + p.environments);
      assert resolved == Apply(before, p);
    }
    assert chain[0..] == chain;
  }

  /** The first of some sections that is both required and excluded. */
  function Clash(p: Profile, sections: seq<Section>): Option<Section> {
    if sections == [] then None
    else
      var s := sections[0];
      if s in p.sections && p.sections[s].Required? && p.sections[s].Excluded? then Some(s)
      else Clash(p, sections[1..])
  }

  /** The checks made after inheritance. */
  function Checked(name: string, resolved: Profile): Result<Profile, Error> {
    match Clash(resolved, ALL)
    case Some(section) => Err(Contradictory(name, section))
    case None =>
      match Validate(resolved)
      case Some(error) => Err(error)
      case None => Ok(resolved)
  }

  lemma {:induction false} NoClash(p: Profile, sections: seq<Section>)
    ensures Clash(p, sections).None?
  {
    if sections != [] {
      NoClash(p, sections[1..]);
    }
  }

  /** One map entry cannot be two values, so a contradiction is never reported. */
  lemma {:induction false} NeverContradictory(name: string, resolved: Profile)
    ensures Checked(name, resolved).Err? ==>
              var error := Checked(name, resolved).error; error.Unnamed? || error.ExcludesFloor? || error.OverAllocated?
    ensures Checked(name, resolved).Ok? <==> Validate(resolved).None?
    ensures Checked(name, resolved).Ok? ==> Checked(name, resolved).value == resolved
  {
    NoClash(resolved, ALL);
  }

  /**
   Resolve a profile. A cycle and an unknown parent are reported exactly when the chain has one; otherwise
   the result is the chain folded from its far end and checked, which never finds a contradiction.
   */
  method Resolve(profiles: map<string, Profile>, name: string) returns (r: Result<Profile, Error>)
    requires Keyed(profiles)
    ensures r.Err? && r.error.InheritanceCycle? <==> Revisits(profiles, name)
    ensures r.Err? && r.error.UnknownParent? <==> LeavesSet(profiles, name)
    ensures r.Err? && r.error.InheritanceCycle? ==>
              r.error.profile == name && Loops(profiles, name, r.error.chain)
    ensures r.Err? && r.error.UnknownParent? ==> Misses(profiles, name, r.error.profile, r.error.parent)
    ensures !(r.Err? && r.error.Contradictory?)
    ensures !Revisits(profiles, name) && !LeavesSet(profiles, name) ==>
              exists chain :: EndsAfter(profiles, name, chain) && r == Checked(name, Folded(name, chain))
  {
    var walked := Walk(profiles, name);
    if walked.Err? {
      return Err(walked.error);
    }
    var resolved := Fold(name, walked.value);
    NeverContradictory(name, resolved);
    return Checked(name, resolved);
  }

  lemma {:induction false} StopsAfter(profiles: map<string, Profile>, name: string, k: nat, n: nat)
    requires k <= n && Ancestor(profiles, name, k).None?
    ensures Ancestor(profiles, name, n).None?
    decreases n - k
  {
    if k < n {
      StopsAfter(profiles, name, k + 1, n);
    }
  }

  /** A chain that stops at `n`, all its names different so far, revisits nothing. */
  lemma {:induction false} NothingRepeats(profiles: map<string, Profile>, name: string, n: nat)
    requires Ancestor(profiles, name, n).None?
    requires forall i: nat, j: nat :: i < j < n ==> Ancestor(profiles, name, i) != Ancestor(profiles, name, j)
    ensures !Revisits(profiles, name)
  {
    forall j: nat | j >= n ensures Ancestor(profiles, name, j).None? {
      StopsAfter(profiles, name, n, j);
    }
  }

  /** A chain that leaves the set does not come back to it. */
  lemma {:induction false} LeavesHere(profiles: map<string, Profile>, name: string, chain: seq<Profile>)
    requires Follows(profiles, name, chain)
    requires Ancestor(profiles, name, |chain|).Some? && Ancestor(profiles, name, |chain|).value !in profiles
    ensures LeavesSet(profiles, name) && !Revisits(profiles, name)
  {
    var n := |chain|;
    assert Ancestor(profiles, name, n + 1).None?;
    NothingRepeats(profiles, name, n + 1);
  }

  /** A chain that ends at a root neither leaves the set nor revisits a name. */
  lemma {:induction false} EndsHere(profiles: map<string, Profile>, name: string, chain: seq<Profile>)
    requires Follows(profiles, name, chain) && Ancestor(profiles, name, |chain|).None?
    ensures !LeavesSet(profiles, name) && !Revisits(profiles, name)
  {
    var n := |chain|;
    NothingRepeats(profiles, name, n);
    forall j: nat | j >= n ensures Ancestor(profiles, name, j).None? {
      StopsAfter(profiles, name, n, j);
    }
  }

  lemma {:induction false} Again(profiles: map<string, Profile>, name: string, i: nat, j: nat, n: nat)
    requires Ancestor(profiles, name, i) == Ancestor(profiles, name, j)
    ensures Ancestor(profiles, name, i + n) == Ancestor(profiles, name, j + n)
  {
    if n > 0 {
      Again(profiles, name, i, j, n - 1);
    }
  }

  /** A chain that has come back goes round for ever, inside the set. */
  lemma {:induction false} CyclesStayAt(profiles: map<string, Profile>, name: string, i: nat, j: nat, k: nat)
    requires i < j && Ancestor(profiles, name, i) == Ancestor(profiles, name, j)
    requires forall m: nat :: m < j ==>
              Ancestor(profiles, name, m).Some? && Ancestor(profiles, name, m).value in profiles
    ensures Ancestor(profiles, name, k).Some? && Ancestor(profiles, name, k).value in profiles
    decreases k
  {
    if k >= j {
      var back := k - (j - i);
      CyclesStayAt(profiles, name, i, j, back);
      Again(profiles, name, i, j, k - j);
      assert i + (k - j) == back && j + (k - j) == k;
    }
  }

  lemma {:induction false} ComesBack(profiles: map<string, Profile>, name: string, chain: seq<Profile>, again: string)
    requires Follows(profiles, name, chain) && again in Names(chain)
    requires Ancestor(profiles, name, |chain|) == Some(again)
    ensures Revisits(profiles, name) && !LeavesSet(profiles, name)
    ensures Loops(profiles, name, Names(chain) + [again])
  {
    var i :| 0 <= i < |chain| && Names(chain)[i] == again;
    GoesRound(profiles, name, chain, i);
    TrailLoops(profiles, name, chain, again);
  }

  lemma {:induction false} GoesRound(profiles: map<string, Profile>, name: string, chain: seq<Profile>, i: nat)
    requires Follows(profiles, name, chain) && i < |chain|
    requires Ancestor(profiles, name, |chain|) == Some(chain[i].name)
    ensures Revisits(profiles, name) && !LeavesSet(profiles, name)
  {
    var j := |chain|;
    assert Ancestor(profiles, name, i) == Ancestor(profiles, name, j);
    forall k: nat ensures Ancestor(profiles, name, k).Some? && Ancestor(profiles, name, k).value in profiles {
      CyclesStayAt(profiles, name, i, j, k);
    }
  }

  lemma {:induction false} TrailLoops(profiles: map<string, Profile>, name: string, chain: seq<Profile>, again: string)
    requires Follows(profiles, name, chain) && again in Names(chain)
    requires Ancestor(profiles, name, |chain|) == Some(again)
    ensures Loops(profiles, name, Names(chain) + [again])
  {
    var trail := Names(chain) + [again];
    assert trail[..|trail| - 1] == Names(chain);
    forall i | 0 <= i < |trail| ensures Ancestor(profiles, name, i) == Some(trail[i]) {
      assert i < |chain| ==> trail[i] == chain[i].name;
    }
  }

  // ----- what a resolved profile says -----

  /** The statement of the nearest profile in a chain that makes one. */
  function Nearest<T>(said: seq<map<Section, T>>, s: Section): Option<T> {
    if said == [] then None
    else if s in said[0] then Some(said[0][s])
    else Nearest(said[1..], s)
  }

  function SectionsSaid(chain: seq<Profile>): seq<map<Section, Preservation>> {
    if chain == [] then [] else [chain[0].sections] + SectionsSaid(chain[1..])
  }

  function WeightsSaid(chain: seq<Profile>): seq<map<Section, Weight>> {
    if chain == [] then [] else [chain[0].weights] + WeightsSaid(chain[1..])
  }

  function AllocationsSaid(chain: seq<Profile>): seq<map<Section, nat>> {
    if chain == [] then [] else [chain[0].allocation] + AllocationsSaid(chain[1..])
  }

  function Lookup<T>(m: map<Section, T>, s: Section): Option<T> {
    if s in m then Some(m[s]) else None
  }

  /** Each rule is that of the nearest profile in the chain stating one. */
  lemma {:induction false} NearestWins(name: string, chain: seq<Profile>, s: Section)
    ensures var folded := Folded(name, chain);
            && Lookup(folded.sections, s) == Nearest(SectionsSaid(chain), s)
            && Lookup(folded.weights, s) == Nearest(WeightsSaid(chain), s)
            && Lookup(folded.allocation, s) == Nearest(AllocationsSaid(chain), s)
            && folded.name == name && folded.inherits == None
  {
    if chain != [] {
      NearestWins(name, chain[1..], s);
      Nearer(chain[0].sections, SectionsSaid(chain[1..]), Folded(name, chain[1..]).sections, s);
      Nearer(chain[0].weights, WeightsSaid(chain[1..]), Folded(name, chain[1..]).weights, s);
      Nearer(chain[0].allocation, AllocationsSaid(chain[1..]), Folded(name, chain[1..]).allocation, s);
    }
  }

  /** One nearer statement laid over what the rest of the chain comes to. */
  lemma {:induction false} Nearer<T>(said: map<Section, T>, further: seq<map<Section, T>>, folded: map<Section, T>,
                                     s: Section)
    requires Lookup(folded, s) == Nearest(further, s)
    ensures Lookup(folded + said, s) == Nearest([said] + further, s)
  {
    assert ([said] + further)[1..] == further;
  }

  /** The nearest profile that has a description. */
  predicate DescribesFirst(chain: seq<Profile>, i: nat)
    requires i < |chain|
  {
    chain[i].description != "" && forall j :: 0 <= j < i ==> chain[j].description == ""
  }

  /** Environments add up along the chain, and the description is the nearest one written, or none. */
  lemma {:induction false} EnvironmentsAddUp(name: string, chain: seq<Profile>, e: string)
    ensures e in Folded(name, chain).environments <==> exists i :: 0 <= i < |chain| && e in chain[i].environments
    ensures forall i :: 0 <= i < |chain| && DescribesFirst(chain, i) ==>
              Folded(name, chain).description == chain[i].description
    ensures (forall i :: 0 <= i < |chain| ==> chain[i].description == "") ==> Folded(name, chain).description == ""
  {
    if chain != [] {
      var rest := chain[1..];
      EnvironmentsAddUp(name, rest, e);
      assert forall i :: 0 <= i < |rest| ==> rest[i] == chain[i + 1];
      if i :| 0 < i < |chain| && e in chain[i].environments {
        assert e in rest[i - 1].environments;
      }
      forall i | 0 < i < |chain| && DescribesFirst(chain, i)
        ensures Folded(name, chain).description == chain[i].description
      {
        assert rest[i - 1] == chain[i];
        assert chain[0].description == "";
        assert forall j :: 0 <= j < i - 1 ==> rest[j] == chain[j + 1];
      }
    }
  }

  /** A chain that ends is the only one that does, so resolving has one answer. */
  lemma {:induction false} OneChain(profiles: map<string, Profile>, name: string, a: seq<Profile>, b: seq<Profile>)
    requires EndsAfter(profiles, name, a) && EndsAfter(profiles, name, b)
    ensures a == b
  {
    assert |a| == |b|;
    forall i | 0 <= i < |a| ensures a[i] == b[i] {
      assert Some(a[i].name) == Ancestor(profiles, name, i) == Some(b[i].name);
    }
  }

  lemma {:induction false} FirstFloor(p: Profile, sections: seq<Section>)
    ensures FloorExcluded(p, sections).None? <==>
              forall s :: s in sections && AlwaysPreserved(s) && s in p.sections ==> !p.sections[s].Excluded?
    ensures FloorExcluded(p, sections).Some? ==>
              var s := FloorExcluded(p, sections).value;
              AlwaysPreserved(s) && s in p.sections && p.sections[s].Excluded?
  {
    if sections != [] {
      FirstFloor(p, sections[1..]);
      assert sections == [sections[0]] + sections[1..];
    }
  }

  /** What one section is allocated. */
  function Share(allocation: map<Section, nat>, s: Section): nat {
    if s in allocation then allocation[s] else 0
  }

  /** The twelve shares together. */
  function Everything(m: map<Section, nat>): nat {
    Share(m, Findings) + Share(m, Entities) + Share(m, Claims) + Share(m, Relationships) + Share(m, Sightings)
    + Share(m, Techniques) + Share(m, Clusters) + Share(m, Contradictions) + Share(m, Pivots) + Share(m, Evidence)
    + Share(m, Markings) + Share(m, Gaps)
  }

  /** The total is the twelve shares added up: nothing is counted twice and nothing left out. */
  lemma {:induction false} AllocatedIsSum(m: map<Section, nat>)
    ensures Allocated(m, ALL) == Everything(m)
  {
    assert ALL == [Findings, Entities, Claims, Relationships, Sightings, Techniques,
                   Clusters, Contradictions, Pivots, Evidence, Markings, Gaps];
    Unrolled(m, ALL, 0);
  }

  /** The total from some place of the list on. */
  lemma {:induction false} Unrolled(m: map<Section, nat>, sections: seq<Section>, k: nat)
    requires k <= |sections|
    ensures Allocated(m, sections[k..]) == From(m, sections, k)
    ensures k == 0 ==> sections[k..] == sections
    decreases |sections| - k
  {
    if k < |sections| {
      Unrolled(m, sections, k + 1);
      assert sections[k..][1..] == sections[k + 1..];
    }
  }

  function From(m: map<Section, nat>, sections: seq<Section>, k: nat): nat
    requires k <= |sections|
    decreases |sections| - k
  {
    if k == |sections| then 0 else Share(m, sections[k]) + From(m, sections, k + 1)
  }

  /** Allocating nothing totals nothing, and allocating more to a section that had none raises the total by as much. */
  lemma {:induction false} AllocatingAdds(m: map<Section, nat>, s: Section, n: nat)
    requires s !in m
    ensures Allocated(map[], ALL) == 0
    ensures Allocated(m[s := n], ALL) == Allocated(m, ALL) + n
  {
    AllocatedIsSum(map[]);
    AllocatedIsSum(m);
    AllocatedIsSum(m[s := n]);
    Raises(m, m[s := n], s, n);
  }

  /** One section's share raised, and the others left alone. */
  lemma {:induction false} Raises(m: map<Section, nat>, more: map<Section, nat>, s: Section, n: nat)
    requires forall t :: Share(more, t) == Share(m, t) + if t == s then n else 0
    ensures Everything(more) == Everything(m) + n
  {
    AllInRank();
    RaisesFrom(m, more, s, n, ALL, 0);
    AllocatedIsSum(m);
    AllocatedIsSum(more);
    Unrolled(m, ALL, 0);
    Unrolled(more, ALL, 0);
  }

  lemma {:induction false} RaisesFrom(m: map<Section, nat>, more: map<Section, nat>, s: Section, n: nat,
                                       sections: seq<Section>, k: nat)
    requires forall t :: Share(more, t) == Share(m, t) + if t == s then n else 0
    requires InRank(sections) && k <= |sections|
    ensures From(more, sections, k) == From(m, sections, k) + if Rank(s) >= k then n else 0
    decreases |sections| - k
  {
    if k < |sections| {
      RaisesFrom(m, more, s, n, sections, k + 1);
    }
  }

  /** Every section once, in the order they are declared. */
  ghost predicate InRank(sections: seq<Section>) {
    && (forall s :: Rank(s) < |sections| && sections[Rank(s)] == s)
    && (forall k :: 0 <= k < |sections| ==> Rank(sections[k]) == k)
  }

  lemma {:induction false} AllInRank()
    ensures InRank(ALL)
  {
    forall s ensures Rank(s) < |ALL| && ALL[Rank(s)] == s {
    }
    forall k | 0 <= k < |ALL| ensures Rank(ALL[k]) == k {
    }
  }

  /** Shares of some sections, each taken once. */
  function SharesOf(m: map<Section, nat>, sections: seq<Section>): nat {
    if sections == [] then 0 else Share(m, sections[0]) + SharesOf(m, sections[1..])
  }

  predicate Different(sections: seq<Section>) {
    forall i, j :: 0 <= i < j < |sections| ==> sections[i] != sections[j]
  }

  /** Any different sections together are allocated no more than the total. */
  lemma {:induction false} SomeAtMostAll(m: map<Section, nat>, sections: seq<Section>)
    requires Different(sections)
    ensures SharesOf(m, sections) <= Everything(m)
  {
    if sections != [] {
      var s := sections[0];
      var rest := m - {s};
      SomeAtMostAll(rest, sections[1..]);
      SharesWithout(m, s, sections[1..]);
      Raises(rest, m, s, Share(m, s));
    }
  }

  lemma {:induction false} SharesWithout(m: map<Section, nat>, s: Section, sections: seq<Section>)
    requires forall i :: 0 <= i < |sections| ==> sections[i] != s
    ensures SharesOf(m - {s}, sections) == SharesOf(m, sections)
  {
    if sections != [] {
      SharesWithout(m, s, sections[1..]);
    }
  }

  /** The place of a section in the order sections are declared. */
  function Rank(s: Section): nat {
    match s
    case Findings => 0 case Entities => 1 case Claims => 2 case Relationships => 3 case Sightings => 4
    case Techniques => 5 case Clusters => 6 case Contradictions => 7 case Pivots => 8 case Evidence => 9
    case Markings => 10 case Gaps => 11
  }

  /** Excluded though it is evidence, markings or gaps, which no profile may exclude. */
  predicate ExcludesIt(p: Profile, s: Section) {
    (s.Evidence? || s.Markings? || s.Gaps?) && Lookup(p.sections, s) == Some(Excluded)
  }

  /** A name is blank when every character of it is white space, which is what these code points are. */
  lemma {:induction false} BlankMeans(name: string)
    ensures Blank(name) <==>
              forall i :: 0 <= i < |name| ==>
                name[i] as int in {9, 10, 11, 12, 13, 32, 0x85, 0xA0, 0x1680, 0x2000, 0x2001, 0x2002, 0x2003, 0x2004,
                                   0x2005, 0x2006, 0x2007, 0x2008, 0x2009, 0x200A, 0x2028, 0x2029, 0x202F, 0x205F,
                                   0x3000}
  {
  }

  /**
   Exactly what a profile is refused for: having no name; else the first section of the floor it excludes; else
   allocating more than the whole, with what the twelve shares come to.
   */
  lemma {:induction false} RefusedFor(p: Profile)
    ensures match Validate(p)
            case None =>
              !Blank(p.name) && (forall s :: !ExcludesIt(p, s)) && Everything(p.allocation) <= 100
            case Some(Unnamed) => Blank(p.name)
            case Some(ExcludesFloor(name, s)) =>
              && !Blank(p.name) && name == p.name && ExcludesIt(p, s)
              && forall t :: ExcludesIt(p, t) ==> Rank(s) <= Rank(t)
            case Some(OverAllocated(name, total)) =>
              && !Blank(p.name) && (forall s :: !ExcludesIt(p, s))
              && name == p.name && total == Everything(p.allocation) > 100
            case Some(_) => false
  {
    AllocatedIsSum(p.allocation);
    FirstFloor(p, ALL);
    AllInRank();
    FirstExcluded(p, ALL, 0);
    assert ALL[0..] == ALL;
    assert ALL[9] == Evidence && ALL[10] == Markings && ALL[11] == Gaps;
  }

  lemma {:induction false} FirstExcluded(p: Profile, sections: seq<Section>, k: nat)
    requires InRank(sections) && k <= |sections|
    ensures match FloorExcluded(p, sections[k..])
            case None => forall t :: ExcludesIt(p, t) ==> Rank(t) < k
            case Some(s) =>
              ExcludesIt(p, s) && k <= Rank(s)
              && forall t :: ExcludesIt(p, t) ==> Rank(t) < k || Rank(s) <= Rank(t)
    decreases |sections| - k
  {
    if k < |sections| {
      FirstExcluded(p, sections, k + 1);
      assert sections[k..][1..] == sections[k + 1..] && sections[k..][0] == sections[k];
    }
  }

  /** A profile passes exactly when it is named, excludes nothing below the floor, and allocates at most the whole. */
  lemma {:induction false} ValidateMeans(p: Profile)
    ensures Validate(p).None? <==>
              && !Blank(p.name)
              && (forall s :: AlwaysPreserved(s) && s in p.sections ==> !p.sections[s].Excluded?)
              && Everything(p.allocation) <= 100
    ensures Validate(p).None? ==> forall sections :: Different(sections) ==> SharesOf(p.allocation, sections) <= 100
  {
    AllocatedIsSum(p.allocation);
    forall sections | Different(sections) ensures SharesOf(p.allocation, sections) <= Everything(p.allocation) {
      SomeAtMostAll(p.allocation, sections);
    }
    FirstFloor(p, ALL);
    assert ALL[9] == Evidence && ALL[10] == Markings && ALL[11] == Gaps;
    forall s | AlwaysPreserved(s) ensures s in ALL {
    }
  }

  /** Nothing below the floor may be dropped, whatever a profile says, and elsewhere only what it requires may not. */
  lemma {:induction false} FloorHolds(p: Profile, s: Section)
    ensures MayDrop(p, s) <==> !AlwaysPreserved(s) && Lookup(p.sections, s) != Some(Required)
    ensures AlwaysPreserved(s) <==> s in {Evidence, Markings, Gaps}
  {
  }

  /**
   What resolving a chain that ends comes to. It succeeds exactly when the profile is named, the nearest rule
   for no section below the floor is to exclude it, and the allocations it ends up with total at most 100.
   The result then says of every section what the nearest profile stating anything says, with the usual
   weight where none does; it may drop a section exactly when that is not below the floor and the nearest
   rule does not require it.
   */
  lemma {:induction false} ResolvedSays(profiles: map<string, Profile>, name: string, chain: seq<Profile>, s: Section)
    requires EndsAfter(profiles, name, chain)
    ensures Checked(name, Folded(name, chain)).Ok? <==>
              && !Blank(name)
              && (forall f :: AlwaysPreserved(f) ==> Nearest(SectionsSaid(chain), f) != Some(Excluded))
              && Everything(Folded(name, chain).allocation) <= 100
    ensures Checked(name, Folded(name, chain)).Ok? ==>
              var r := Checked(name, Folded(name, chain)).value;
              && (MayDrop(r, s) <==> !AlwaysPreserved(s) && Nearest(SectionsSaid(chain), s) != Some(Required))
              && WeightOf(r, s) == Nearest(WeightsSaid(chain), s).Or(Some(50)).value
              && Lookup(r.allocation, s) == Nearest(AllocationsSaid(chain), s)
              && Everything(r.allocation) <= 100
  {
    var folded := Folded(name, chain);
    NeverContradictory(name, folded);
    ValidateMeans(folded);
    NearestWins(name, chain, s);
    forall f
      ensures Nearest(SectionsSaid(chain), f) == Some(Excluded) <==>
                f in folded.sections && folded.sections[f].Excluded?
    {
      NearestWins(name, chain, f);
    }
    FloorHolds(folded, s);
  }
}
