/** Compiling a search expression to a typed filter, and when the filter means what the expression says. */
module Query {
  import opened Machine

  datatype Kind =
    | ThreatActor | MalwareFamily | Tool | Campaign | IntrusionSet | Vulnerability | AttackTechnique
    | Infrastructure | Identity | Incident | Report | Asset | Location | Sector | DetectionRule | SoftwarePackage

  datatype Status = Active | Revoked | Superseded | Expired | Deprecated

  const KINDS: seq<Kind> :=
    [ThreatActor, MalwareFamily, Tool, Campaign, IntrusionSet, Vulnerability, AttackTechnique,
     Infrastructure, Identity, Incident, Report, Asset, Location, Sector, DetectionRule, SoftwarePackage]

  const STATUSES: seq<Status> := [Active, Revoked, Superseded, Expired, Deprecated]

  function KindName(k: Kind): string {
    match k
    case ThreatActor => "threat_actor"
    case MalwareFamily => "malware_family"
    case Tool => "tool"
    case Campaign => "campaign"
    case IntrusionSet => "intrusion_set"
    case Vulnerability => "vulnerability"
    case AttackTechnique => "attack_technique"
    case Infrastructure => "infrastructure"
    case Identity => "identity"
    case Incident => "incident"
    case Report => "report"
    case Asset => "asset"
    case Location => "location"
    case Sector => "sector"
    case DetectionRule => "detection_rule"
    case SoftwarePackage => "software_package"
  }

  function StatusName(s: Status): string {
    match s
    case Active => "active"
    case Revoked => "revoked"
    case Superseded => "superseded"
    case Expired => "expired"
    case Deprecated => "deprecated"
  }

  datatype Field = OnKind | OnStatus
  datatype Op = Eq | Ne
  datatype Literal = Ident(text: string) | Quoted(text: string)

  datatype Expr =
    | Compare(field: Field, op: Op, value: Literal)
    | And(left: Expr, right: Expr)
    | Or(left: Expr, right: Expr)
    | Group(inner: Expr)

  datatype Entity = Entity(kind: Kind, status: Status, lastSeen: Option<int>)

  /** An empty set admits everything; the bounds are days. */
  datatype Filter = Filter(kinds: set<Kind>, statuses: set<Status>, seenFrom: Option<int>, seenBefore: Option<int>)

  const UNFILTERED := Filter({}, {}, None, None)

  datatype Error = OnlyEquals | UnknownKind(text: string) | UnknownStatus(text: string) | NoOr

  function FindKind(kinds: seq<Kind>, text: string): Option<Kind> {
    if kinds == [] then None
    else if KindName(kinds[0]) == text then Some(kinds[0])
    else FindKind(kinds[1..], text)
  }

  function FindStatus(statuses: seq<Status>, text: string): Option<Status> {
    if statuses == [] then None
    else if StatusName(statuses[0]) == text then Some(statuses[0])
    else FindStatus(statuses[1..], text)
  }

  function MergeAnd(a: Filter, b: Filter): Filter {
    Filter(a.kinds + b.kinds, a.statuses + b.statuses, a.seenFrom.Or(b.seenFrom), a.seenBefore.Or(b.seenBefore))
  }

  function Compile(expr: Expr): Result<Filter, Error> {
    match expr
    case Group(inner) => Compile(inner)
    case Compare(field, op, value) =>
      if op != Eq then Err(OnlyEquals)
      else (
        match field
        case OnKind =>
          (match FindKind(KINDS, value.text)
           case None => Err(UnknownKind(value.text))
           case Some(kind) => Ok(UNFILTERED.(kinds := {kind})))
        case OnStatus =>
          (match FindStatus(STATUSES, value.text)
           case None => Err(UnknownStatus(value.text))
           case Some(status) => Ok(UNFILTERED.(statuses := {status}))))
    case And(left, right) =>
      (match Compile(left)
       case Err(error) => Err(error)
       case Ok(a) =>
         match Compile(right)
         case Err(error) => Err(error)
         case Ok(b) => Ok(MergeAnd(a, b)))
    case Or(_, _) => Err(NoOr)
  }

  // ----- what an expression says, and what a filter admits -----

  predicate Says(expr: Expr, e: Entity) {
    match expr
    case Group(inner) => Says(inner, e)
    case Compare(field, op, value) =>
      var holds := value.text == if field.OnKind? then KindName(e.kind) else StatusName(e.status);
      if op.Eq? then holds else !holds
    case And(left, right) => Says(left, e) && Says(right, e)
    case Or(left, right) => Says(left, e) || Says(right, e)
  }

  /** The storage layer's reading of a filter. An entity never seen matches no bound. */
  predicate Admits(f: Filter, e: Entity) {
    && (f.kinds != {} ==> e.kind in f.kinds)
    && (f.statuses != {} ==> e.status in f.statuses)
    && (f.seenFrom.Some? ==> e.lastSeen.Some? && e.lastSeen.value >= f.seenFrom.value)
    && (f.seenBefore.Some? ==> e.lastSeen.Some? && e.lastSeen.value < f.seenBefore.value)
  }

  /** Built from `=`, `and` and groups, over names that exist. */
  predicate Supported(expr: Expr) {
    match expr
    case Group(inner) => Supported(inner)
    case Compare(field, op, value) =>
      op.Eq? && if field.OnKind? then exists k :: KindName(k) == value.text else exists s :: StatusName(s) == value.text
    case And(left, right) => Supported(left) && Supported(right)
    case Or(_, _) => false
  }

  /** The values a supported expression names for each field. */
  function KindsNamed(expr: Expr): set<string> {
    match expr
    case Group(inner) => KindsNamed(inner)
    case Compare(field, _, value) => if field.OnKind? then {value.text} else {}
    case And(left, right) => KindsNamed(left) + KindsNamed(right)
    case Or(left, right) => KindsNamed(left) + KindsNamed(right)
  }

  function StatusesNamed(expr: Expr): set<string> {
    match expr
    case Group(inner) => StatusesNamed(inner)
    case Compare(field, _, value) => if field.OnStatus? then {value.text} else {}
    case And(left, right) => StatusesNamed(left) + StatusesNamed(right)
    case Or(left, right) => StatusesNamed(left) + StatusesNamed(right)
  }

  lemma {:induction false} FindsKind(kinds: seq<Kind>, text: string)
    ensures FindKind(kinds, text).Some? ==>
              FindKind(kinds, text).value in kinds && KindName(FindKind(kinds, text).value) == text
    ensures FindKind(kinds, text).None? ==> forall k :: k in kinds ==> KindName(k) != text
  {
    if kinds != [] {
      FindsKind(kinds[1..], text);
      assert kinds == [kinds[0]] + kinds[1..];
    }
  }

  lemma {:induction false} FindsStatus(statuses: seq<Status>, text: string)
    ensures FindStatus(statuses, text).Some? ==>
              FindStatus(statuses, text).value in statuses && StatusName(FindStatus(statuses, text).value) == text
    ensures FindStatus(statuses, text).None? ==> forall s :: s in statuses ==> StatusName(s) != text
  {
    if statuses != [] {
      FindsStatus(statuses[1..], text);
      assert statuses == [statuses[0]] + statuses[1..];
    }
  }

  lemma {:induction false} EveryKindListed(k: Kind)
    ensures k in KINDS
  {
    var i := match k
      case ThreatActor => 0 case MalwareFamily => 1 case Tool => 2 case Campaign => 3 case IntrusionSet => 4
      case Vulnerability => 5 case AttackTechnique => 6 case Infrastructure => 7 case Identity => 8 case Incident => 9
      case Report => 10 case Asset => 11 case Location => 12 case Sector => 13 case DetectionRule => 14
      case SoftwarePackage => 15;
    assert KINDS[i] == k;
  }

  /** A number for each kind, read off its name. */
  function Mark(name: string): int {
    if |name| < 3 then 0 else 1000 * |name| + (name[0] as int) + (name[2] as int)
  }

  lemma {:induction false} NamesDiffer(a: Kind, b: Kind)
    requires KindName(a) == KindName(b)
    ensures a == b
  {
    assert Mark(KindName(a)) == Mark(KindName(b));
  }

  lemma {:induction false} StatusNamesDiffer(a: Status, b: Status)
    requires StatusName(a) == StatusName(b)
    ensures a == b
  {
    assert Mark(StatusName(a)) == Mark(StatusName(b));
  }

  lemma {:induction false} EveryStatusListed(s: Status)
    ensures s in STATUSES
  {
    var i := match s case Active => 0 case Revoked => 1 case Superseded => 2 case Expired => 3 case Deprecated => 4;
    assert STATUSES[i] == s;
  }

  /** Looking a name up finds the one kind that has it, if any does. */
  lemma {:induction false} FoundKind(text: string)
    ensures FindKind(KINDS, text).Some? <==> exists k :: KindName(k) == text
    ensures FindKind(KINDS, text).Some? ==> forall k :: k == FindKind(KINDS, text).value <==> KindName(k) == text
  {
    FindsKind(KINDS, text);
    forall k ensures k in KINDS { EveryKindListed(k); }
    forall a, b | KindName(a) == KindName(b) ensures a == b { NamesDiffer(a, b); }
  }

  lemma {:induction false} FoundStatus(text: string)
    ensures FindStatus(STATUSES, text).Some? <==> exists s :: StatusName(s) == text
    ensures FindStatus(STATUSES, text).Some? ==> forall s :: s == FindStatus(STATUSES, text).value <==>
              StatusName(s) == text
  {
    FindsStatus(STATUSES, text);
    forall s ensures s in STATUSES { EveryStatusListed(s); }
    forall a, b | StatusName(a) == StatusName(b) ensures a == b { StatusNamesDiffer(a, b); }
  }

  /** What compiling produces: the named kinds and statuses, and no bounds. */
  lemma {:induction false} CompiledNames(expr: Expr)
    ensures Compile(expr).Ok? <==> Supported(expr)
    ensures Compile(expr).Ok? ==>
              var f := Compile(expr).value;
              && (forall k :: k in f.kinds <==> KindName(k) in KindsNamed(expr))
              && (forall s :: s in f.statuses <==> StatusName(s) in StatusesNamed(expr))
              && (f.kinds == {} <==> KindsNamed(expr) == {})
              && (f.statuses == {} <==> StatusesNamed(expr) == {})
              && f.seenFrom.None? && f.seenBefore.None?
  {
    match expr
    case Group(inner) => CompiledNames(inner);
    case And(left, right) =>
      CompiledNames(left);
      CompiledNames(right);
    case Or(_, _) =>
    case Compare(field, op, value) =>
      FoundKind(value.text);
      FoundStatus(value.text);
  }

  predicate Only(names: set<string>, name: string) {
    forall n :: n in names ==> n == name
  }

  lemma {:induction false} OnlyBoth(a: set<string>, b: set<string>, name: string)
    ensures Only(a + b, name) <==> Only(a, name) && Only(b, name)
  {
    assert forall n :: n in a ==> n in a + b;
    assert forall n :: n in b ==> n in a + b;
  }

  /** A supported expression says that every value it names is the entity's own. */
  lemma {:induction false} SaysMeans(expr: Expr, e: Entity)
    requires Supported(expr)
    ensures Says(expr, e) <==>
              Only(KindsNamed(expr), KindName(e.kind)) && Only(StatusesNamed(expr), StatusName(e.status))
  {
    match expr
    case Group(inner) => SaysMeans(inner, e);
    case And(left, right) =>
      SaysMeans(left, e);
      SaysMeans(right, e);
      OnlyBoth(KindsNamed(left), KindsNamed(right), KindName(e.kind));
      OnlyBoth(StatusesNamed(left), StatusesNamed(right), StatusName(e.status));
    case Compare(field, op, value) =>
      assert field.OnKind? ==> value.text in KindsNamed(expr);
      assert field.OnStatus? ==> value.text in StatusesNamed(expr);
  }

  /** Nothing an expression selects is lost: the filter admits every entity it says. */
  lemma {:induction false} FilterNeverLoses(expr: Expr, e: Entity)
    requires Compile(expr).Ok? && Says(expr, e)
    ensures Admits(Compile(expr).value, e)
  {
    CompiledNames(expr);
    SaysMeans(expr, e);
    var f := Compile(expr).value;
    if f.kinds != {} {
      var k :| k in f.kinds;
      NamesDiffer(k, e.kind);
    }
    if f.statuses != {} {
      var s :| s in f.statuses;
      StatusNamesDiffer(s, e.status);
    }
  }

  ghost predicate AtMostOne(names: set<string>) {
    forall m, n :: m in names && n in names ==> m == n
  }

  /** Every name a supported expression uses is the name of something. */
  lemma {:induction false} NamesExist(expr: Expr)
    requires Supported(expr)
    ensures forall n :: n in KindsNamed(expr) ==> exists k :: KindName(k) == n
    ensures forall n :: n in StatusesNamed(expr) ==> exists s :: StatusName(s) == n
  {
    match expr
    case Group(inner) => NamesExist(inner);
    case And(left, right) =>
      NamesExist(left);
      NamesExist(right);
    case Compare(field, op, value) =>
  }

  /**
   The filter agrees with the expression on every entity exactly when the expression names at most one
   value for each field. Two different kinds joined by `and` say nothing at all; the filter admits both.
   */
  lemma {:induction false} FilterAgreesExactly(expr: Expr)
    requires Compile(expr).Ok?
    ensures (forall e :: Admits(Compile(expr).value, e) <==> Says(expr, e)) <==>
              AtMostOne(KindsNamed(expr)) && AtMostOne(StatusesNamed(expr))
  {
    CompiledNames(expr);
    NamesExist(expr);
    var f := Compile(expr).value;
    if AtMostOne(KindsNamed(expr)) && AtMostOne(StatusesNamed(expr)) {
      forall e ensures Admits(f, e) <==> Says(expr, e) {
        SaysMeans(expr, e);
        if Says(expr, e) {
          FilterNeverLoses(expr, e);
        }
      }
    } else {
      var k := SomeKind(f);
      var s := SomeStatus(f);
      var e := Entity(k, s, None);
      assert Admits(f, e);
      SaysMeans(expr, e);
      if !AtMostOne(KindsNamed(expr)) {
        var m, n :| m in KindsNamed(expr) && n in KindsNamed(expr) && m != n;
      } else {
        var m, n :| m in StatusesNamed(expr) && n in StatusesNamed(expr) && m != n;
      }
    }
  }

  // ----- what an unsupported expression is refused for -----

  /** The comparisons and disjunctions an expression joins with `and`, in reading order. */
  function Parts(expr: Expr): seq<Expr> {
    match expr
    case Group(inner) => Parts(inner)
    case And(left, right) => Parts(left) + Parts(right)
    case _ => [expr]
  }

  /** What is wrong with one of them, if anything. */
  ghost predicate Wrong(part: Expr, error: Error) {
    match part
    case Or(_, _) => error == NoOr
    case Compare(_, Ne, _) => error == OnlyEquals
    case Compare(OnKind, Eq, value) => error == UnknownKind(value.text) && forall k :: KindName(k) != value.text
    case Compare(OnStatus, Eq, value) => error == UnknownStatus(value.text) && forall s :: StatusName(s) != value.text
    case _ => false
  }

  ghost predicate AllSupported(parts: seq<Expr>) {
    forall i :: 0 <= i < |parts| ==> Supported(parts[i])
  }

  /** The first thing wrong. */
  ghost predicate FirstWrong(parts: seq<Expr>, error: Error) {
    exists i :: 0 <= i < |parts| && Wrong(parts[i], error) && forall j :: 0 <= j < i ==> Supported(parts[j])
  }

  lemma {:induction false} WrongInBoth(a: seq<Expr>, b: seq<Expr>, error: Error)
    ensures FirstWrong(a, error) ==> FirstWrong(a + b, error)
    ensures AllSupported(a) && FirstWrong(b, error) ==> FirstWrong(a + b, error)
  {
    var all := a + b;
    assert forall i :: 0 <= i < |a| ==> all[i] == a[i];
    assert forall i :: 0 <= i < |b| ==> all[|a| + i] == b[i];
    if FirstWrong(a, error) {
      var i :| 0 <= i < |a| && Wrong(a[i], error) && forall j :: 0 <= j < i ==> Supported(a[j]);
      assert Wrong(all[i], error);
    }
    if AllSupported(a) && FirstWrong(b, error) {
      var i :| 0 <= i < |b| && Wrong(b[i], error) && forall j :: 0 <= j < i ==> Supported(b[j]);
      assert Wrong(all[|a| + i], error);
      assert forall j :: |a| <= j < |a| + i ==> all[j] == b[j - |a|];
    }
  }

  lemma {:induction false} SupportedInBoth(a: seq<Expr>, b: seq<Expr>)
    ensures AllSupported(a + b) <==> AllSupported(a) && AllSupported(b)
  {
    assert forall i :: 0 <= i < |a| ==> (a + b)[i] == a[i];
    assert forall i :: 0 <= i < |b| ==> (a + b)[|a| + i] == b[i];
  }

  lemma {:induction false} ComparisonRefused(expr: Expr)
    requires expr.Compare? && Compile(expr).Err?
    ensures Wrong(expr, Compile(expr).error)
  {
    FoundKind(expr.value.text);
    FoundStatus(expr.value.text);
  }

  /** An expression is refused for the first of its parts with something wrong, and for that. */
  lemma {:induction false} RefusedForFirst(expr: Expr)
    ensures Compile(expr).Ok? <==> AllSupported(Parts(expr))
    ensures Compile(expr).Err? ==> FirstWrong(Parts(expr), Compile(expr).error)
  {
    match expr
    case Group(inner) => RefusedForFirst(inner);
    case And(left, right) =>
      RefusedForFirst(left);
      RefusedForFirst(right);
      SupportedInBoth(Parts(left), Parts(right));
      if Compile(expr).Err? {
        WrongInBoth(Parts(left), Parts(right), Compile(expr).error);
      }
    case Or(_, _) =>
      assert Parts(expr)[0] == expr && Wrong(expr, NoOr);
    case Compare(_, _, _) =>
      CompiledNames(expr);
      assert Parts(expr)[0] == expr;
      if Compile(expr).Err? {
        ComparisonRefused(expr);
      }
  }

  /** The example the grammar is documented with. */
  lemma {:induction false} NamesAreRead()
    ensures Compile(And(Compare(OnKind, Eq, Ident("threat_actor")), Compare(OnStatus, Eq, Quoted("active"))))
         == Ok(Filter({ThreatActor}, {Active}, None, None))
  {
    FoundKind("threat_actor");
    FoundStatus("active");
    assert KindName(ThreatActor) == "threat_actor" && StatusName(Active) == "active";
    var left, right := Compare(OnKind, Eq, Ident("threat_actor")), Compare(OnStatus, Eq, Quoted("active"));
    assert Compile(left) == Ok(UNFILTERED.(kinds := {ThreatActor}));
    assert Compile(right) == Ok(UNFILTERED.(statuses := {Active}));
    assert {ThreatActor} + {} == {ThreatActor} && {} + {Active} == {Active};
  }

  /** A kind the filter admits. */
  ghost function SomeKind(f: Filter): (k: Kind)
    ensures f.kinds != {} ==> k in f.kinds
  {
    if f.kinds == {} then ThreatActor else var k :| k in f.kinds; k
  }

  ghost function SomeStatus(f: Filter): (s: Status)
    ensures f.statuses != {} ==> s in f.statuses
  {
    if f.statuses == {} then Active else var s :| s in f.statuses; s
  }
}
