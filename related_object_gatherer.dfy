/**
  The referenced-related-object gatherer. Before a projection is translated to
  SQL, it walks the projection's expressions. It records every navigation
  through related data-access objects (`c.Address.Region`) so that the
  translator can join the related tables, and it expands `Include(...)` calls
  into included-path records.

  The walk is stated twice:
  - as a pure function `Walk` over an explicit gatherer `State`, about which
    the properties are proved;
  - as the class `Gatherer`, whose fields are the source's fields and whose
    methods, loops included, are proved to do exactly what `Walk` says.

  Node identity is structural equality. The type-mapping layer (is a type a
  data-access-object type, does it have a descriptor, is a property a primary
  key) is a `TypeModel` of abstract predicates.
*/
module RelatedObjectGatherer {
  import opened Wrappers

  /** A member of a type: its name, whether it is a property (not a field), its declaring and its value type. */
  datatype Prop = Prop(name: string, isProperty: bool, reflectedType: string, memberType: string)

  /** A property path, from the root outwards. */
  type Path = seq<Prop>

  /**
    The expression nodes the gatherer distinguishes. An `Include(source, selector)`
    call carries its selector's body with the selector's parameter already
    replaced by `source`.
  */
  datatype GExpr =
    | Parameter(name: string, ty: string)
    | MemberAccess(target: GExpr, prop: Prop)
    | Include(source: GExpr, selector: GExpr)
    | MethodCall(callee: string, ty: string, args: seq<GExpr>)
    | Binary(op: string, ty: string, left: GExpr, right: GExpr)
    | Conditional(ty: string, test: GExpr, ifTrue: GExpr, ifFalse: GExpr)
    | Leaf(kind: string, ty: string)

  /** The type-mapping questions the gatherer asks. */
  datatype TypeModel = TypeModel(
    isDataAccessObject: string -> bool,
    hasDescriptor: string -> bool,
    hasProperty: (string, string) -> bool,
    isPrimaryKey: (string, string) -> bool)

  /** What a gatherer is constructed with. */
  datatype Config = Config(model: TypeModel, source: GExpr, forProjection: bool)

  /** A referenced related object: its full path, the part of it that is included, the object expression and the targets. */
  datatype RelatedObject = RelatedObject(fullPath: Path, includedPath: Path, objectExpression: GExpr, targets: set<GExpr>)

  /** One included-property record. */
  datatype IncludedInfo = IncludedInfo(root: GExpr, fullPath: Path, includedPath: Path)

  /** The gatherer's fields. */
  datatype State = State(
    disableCompare: bool,
    currentParent: Option<GExpr>,
    nesting: int,
    referenced: seq<RelatedObject>,
    included: set<IncludedInfo>,
    rootByPath: map<Path, GExpr>,
    results: map<Path, RelatedObject>)

  /** The exceptions the walk can raise. */
  datatype Error =
    | IncludeOutsideProjection
    | MissingPropertyDescriptor
    | IndexOutOfRange(index: int)
    | FieldInPrefix

  const Initial := State(false, None, 0, [], {}, map[], map[])

  function TypeOf(e: GExpr): string
  {
    match e
    case Parameter(_, ty) => ty
    case MemberAccess(_, p) => p.memberType
    case Include(source, _) => TypeOf(source)
    case MethodCall(_, ty, _) => ty
    case Binary(_, ty, _, _) => ty
    case Conditional(ty, _, _, _) => ty
    case Leaf(_, ty) => ty
  }

  // ---------------------------------------------------------------------------
  // LINQ helpers
  // ---------------------------------------------------------------------------

  /** LINQ's Take: the first `n` elements, none when `n` is not positive, all when `n` is too large. */
  function TakeN<T>(s: seq<T>, n: int): (r: seq<T>)
    ensures |r| == if n <= 0 then 0 else if n >= |s| then |s| else n
    ensures r == s[..|r|]
  {
    if n <= 0 then [] else if n >= |s| then s else s[..n]
  }

  /** LINQ's Skip: drops the first `n` elements, none when `n` is not positive. */
  function SkipN<T>(s: seq<T>, n: int): (r: seq<T>)
    ensures |r| == if n <= 0 then |s| else if n >= |s| then 0 else |s| - n
    ensures r == s[|s| - |r|..]
  {
    if n <= 0 then s else if n >= |s| then [] else s[n..]
  }

  function Reverse<T>(s: seq<T>): (r: seq<T>)
    ensures |r| == |s|
    ensures forall i :: 0 <= i < |s| ==> r[i] == s[|s| - 1 - i]
  {
    if s == [] then [] else Reverse(s[1..]) + [s[0]]
  }

  // ---------------------------------------------------------------------------
  // Navigation chains
  // ---------------------------------------------------------------------------

  /** The chain of property accesses starting at `e` and going inwards, outermost first. */
  function Chain(e: GExpr): (r: seq<GExpr>)
    ensures r != [] ==> r[0] == e
    ensures r == [] <==> !(e.MemberAccess? && e.prop.isProperty)
    ensures AllAccesses(r)
  {
    if e.MemberAccess? && e.prop.isProperty then [e] + Chain(e.target) else []
  }

  /**
    A chain is made of property accesses only, each one the target of the one
    before it, and it goes as far in as it can: below its last access there is
    no further property access.
  */
  lemma {:induction false} ChainShape(e: GExpr)
    ensures forall i :: 0 <= i < |Chain(e)| ==> Chain(e)[i].MemberAccess? && Chain(e)[i].prop.isProperty
    ensures forall i :: 0 < i < |Chain(e)| ==> Chain(e)[i] == Chain(e)[i - 1].target
    ensures Chain(e) != [] ==>
      var last := Chain(e)[|Chain(e)| - 1].target; !(last.MemberAccess? && last.prop.isProperty)
  {
    if e.MemberAccess? && e.prop.isProperty {
      ChainShape(e.target);
      assert Chain(e) == [e] + Chain(e.target);
    }
  }

  predicate AllAccesses(s: seq<GExpr>)
  {
    forall i :: 0 <= i < |s| ==> s[i].MemberAccess?
  }

  /** The properties of a sequence of accesses. */
  function Props(s: seq<GExpr>): (r: Path)
    requires AllAccesses(s)
    ensures |r| == |s|
  {
    if s == [] then [] else [s[0].prop] + Props(s[1..])
  }

  lemma {:induction false} PropsIndex(s: seq<GExpr>)
    requires AllAccesses(s)
    ensures forall k :: 0 <= k < |s| ==> Props(s)[k] == s[k].prop
  {
    if s != [] {
      PropsIndex(s[1..]);
      assert forall k :: 0 < k < |s| ==> Props(s)[k] == Props(s[1..])[k - 1] && s[k] == s[1..][k - 1];
    }
  }

  /** Where the walk over a chain stops: a declaring type that is not a data-access object, or the current parent. */
  predicate Stops(c: Config, parent: Option<GExpr>, x: GExpr)
    requires x.MemberAccess?
  {
    !c.model.isDataAccessObject(x.prop.reflectedType) || Some(x) == parent
  }

  /** The first index at or after `i` where the chain stops. */
  function FirstStop(c: Config, parent: Option<GExpr>, visited: seq<GExpr>, i: nat): (r: Option<nat>)
    requires AllAccesses(visited)
    ensures r.Some? ==> i <= r.value < |visited| && Stops(c, parent, visited[r.value])
    ensures forall k :: i <= k < |visited| && (r.None? || k < r.value) ==> !Stops(c, parent, visited[k])
    decreases |visited| - i
  {
    if i >= |visited| then None
    else if Stops(c, parent, visited[i]) then Some(i)
    else FirstStop(c, parent, visited, i + 1)
  }

  // ---------------------------------------------------------------------------
  // Member accesses
  // ---------------------------------------------------------------------------

  /**
    The related object created for a path seen for the first time: its included
    path drops the first `skip` properties, and its object expression is the
    access `skip - 1` steps further out in the chain, or the root when there is
    none; an index past the chain's end fails.
  */
  function NewObject(path: Path, rev: seq<GExpr>, skip: int, i: int, root: GExpr): (r: Result<RelatedObject, Error>)
    ensures r.Ok? ==> r.value.fullPath == path && r.value.includedPath == SkipN(path, skip) && r.value.targets == {}
    ensures r.Err? <==> i + skip - 1 >= |rev|
    ensures r.Ok? ==> r.value.objectExpression == (if i + skip - 1 < 0 then root else rev[i + skip - 1])
  {
    var x := i + skip - 1;
    if x < 0 then Ok(RelatedObject(path, SkipN(path, skip), root, {}))
    else if x < |rev| then Ok(RelatedObject(path, SkipN(path, skip), rev[x], {}))
    else Err(IndexOutOfRange(x))
  }

  /** What one step of the registration loop does: stop with an outcome, or go on from a new state. */
  datatype Step = Stop(outcome: Result<State, Error>) | Next(state: State)

  /**
    One step of the registration loop over a chain (`rev` is the chain innermost
    first), at its `i`-th access counted from the outside. It looks at the path
    from the innermost access up to the current one. A path whose last property
    is declared outside data-access objects is recorded as a root and ends the
    loop. Any other path is registered in `results` if absent (first writer
    wins), appended to `referenced`, and given a target expression.
  */
  function RegisterStep(c: Config, s: State, m: GExpr, expr: GExpr, projection: bool,
                        rev: seq<GExpr>, skip: int, root: GExpr, i: nat): Step
    requires m.MemberAccess? && AllAccesses(rev) && i < |rev|
  {
    var path := PathAt(rev, i);
    if !c.model.isDataAccessObject(path[|path| - 1].reflectedType) then
      Stop(Ok(s.(rootByPath := s.rootByPath[path := rev[|rev| - 1 - i]])))
    else
      var made := Lookup(s, path, rev, skip, root, i);
      if made.Err? then Stop(Err(made.error))
      else Next(Reference(s, path, made.value, TargetOf(m, expr, projection, rev[|rev| - 1 - i])))
  }

  /** The path from the innermost access of the chain up to its `i`-th access from the outside. */
  function PathAt(rev: seq<GExpr>, i: nat): (path: Path)
    requires AllAccesses(rev) && i < |rev|
    ensures |path| == |rev| - i
  {
    Props(TakeN(rev, |rev| - i))
  }

  /**
    The path of the `i`-th pass holds the chain's properties from the innermost
    one up to that of the pass's own access, which comes last.
  */
  lemma PathAtEndsAtCurrent(rev: seq<GExpr>, i: nat)
    requires AllAccesses(rev) && i < |rev|
    ensures forall k :: 0 <= k < |rev| - i ==> PathAt(rev, i)[k] == rev[k].prop
    ensures PathAt(rev, i)[|rev| - i - 1] == rev[|rev| - 1 - i].prop
  {
    var t := TakeN(rev, |rev| - i);
    assert forall k :: 0 <= k < |t| ==> t[k] == rev[k];
    PropsIndex(t);
  }

  /** The object filed under `path`, or a new one. */
  function Lookup(s: State, path: Path, rev: seq<GExpr>, skip: int, root: GExpr, i: nat): Result<RelatedObject, Error>
  {
    if path in s.results then Ok(s.results[path]) else NewObject(path, rev, skip, i, root)
  }

  /**
    The target expressions a pass adds: the current access when an access typed
    as a data-access object is gathered for a projection; otherwise, on the first
    pass only, the target of the member access when that target is itself a
    member access.
  */
  function TargetOf(m: GExpr, expr: GExpr, projection: bool, cur: GExpr): set<GExpr>
    requires m.MemberAccess?
  {
    if projection then {cur} else if cur == expr && m.target.MemberAccess? then {m.target} else {}
  }

  /** The registration loop, from the `i`-th access of the chain counted from the outside. */
  function RegisterFrom(c: Config, s: State, m: GExpr, expr: GExpr, projection: bool,
                        rev: seq<GExpr>, skip: int, root: GExpr, i: nat): Result<State, Error>
    requires m.MemberAccess? && AllAccesses(rev)
    decreases |rev| - i
  {
    if i >= |rev| then Ok(s)
    else
      match RegisterStep(c, s, m, expr, projection, rev, skip, root, i)
      case Stop(outcome) => outcome
      case Next(s') => RegisterFrom(c, s', m, expr, projection, rev, skip, root, i + 1)
  }

  /** One pass of the registration loop followed by the rest of it. */
  lemma RegisterFromUnfolds(c: Config, s: State, m: GExpr, expr: GExpr, projection: bool,
                            rev: seq<GExpr>, skip: int, root: GExpr, i: nat)
    requires m.MemberAccess? && AllAccesses(rev) && i < |rev|
    ensures RegisterFrom(c, s, m, expr, projection, rev, skip, root, i) ==
      match RegisterStep(c, s, m, expr, projection, rev, skip, root, i)
      case Stop(outcome) => outcome
      case Next(s') => RegisterFrom(c, s', m, expr, projection, rev, skip, root, i + 1)
  {
  }

  /** A member access walks to itself, with the state its registration leaves. */
  lemma WalkMemberAccess(c: Config, s: State, m: GExpr)
    requires m.MemberAccess?
    ensures Walk(c, s, m) == match MemberAccessStep(c, s, m)
                             case Ok(s') => Ok((m, s'))
                             case Err(x) => Err(x)
  {
  }

  /** Files `info` under `path` with the extra targets, and appends it to the referenced list. */
  function Reference(s: State, path: Path, info: RelatedObject, target: set<GExpr>): State
  {
    s.(referenced := s.referenced + [info], results := s.results[path := info.(targets := info.targets + target)])
  }

  /** The expression below the chain: the target of its innermost access, or `target` when the chain is empty. */
  function ChainRoot(target: GExpr, visited: seq<GExpr>): GExpr
    requires AllAccesses(visited)
  {
    if visited == [] then target else visited[|visited| - 1].target
  }

  /** How many properties, counted from the innermost, the included path of the chain leaves out. */
  function SkipOf(c: Config, parent: Option<GExpr>, visited: seq<GExpr>): int
    requires AllAccesses(visited)
  {
    var stop := FirstStop(c, parent, visited, 0);
    if stop.Some? then |visited| - stop.value else 0
  }

  /** The root expression of new related objects: the access where the chain stops, or the expression below it. */
  function RootOf(c: Config, parent: Option<GExpr>, visited: seq<GExpr>, root: GExpr): GExpr
    requires AllAccesses(visited)
  {
    var stop := FirstStop(c, parent, visited, 0);
    if stop.Some? then visited[stop.value] else root
  }

  /** Registers the chain starting at `expr` for the access `m`. */
  function Register(c: Config, s: State, m: GExpr, expr: GExpr, projection: bool): Result<State, Error>
    requires m.MemberAccess?
  {
    var visited := Chain(expr);
    ChainShape(expr);
    RegisterFrom(c, s, m, expr, projection, Reverse(visited), SkipOf(c, s.currentParent, visited),
                 RootOf(c, s.currentParent, visited, ChainRoot(m.target, visited)), 0)
  }

  /**
    A member access. An access typed as a data-access object registers its own
    chain when gathering for a projection and nothing otherwise. Any other access
    registers the chain of its target, unless the target's type has no
    descriptor or the property is a primary key.
  */
  function MemberAccessStep(c: Config, s: State, m: GExpr): Result<State, Error>
    requires m.MemberAccess?
  {
    if c.model.isDataAccessObject(m.prop.memberType) then
      if c.forProjection then Register(c, s, m, m, true) else Ok(s)
    else if !c.model.hasDescriptor(TypeOf(m.target)) then Ok(s)
    else if !c.model.hasProperty(TypeOf(m.target), m.prop.name) then Err(MissingPropertyDescriptor)
    else if c.model.isPrimaryKey(TypeOf(m.target), m.prop.name) then Ok(s)
    else Register(c, s, m, m.target, false)
  }

  // ---------------------------------------------------------------------------
  // Include
  // ---------------------------------------------------------------------------

  /** The included-property records added for one related object and a prefix. */
  function IncludedRecords(root: GExpr, info: RelatedObject, prefix: Path): set<IncludedInfo>
  {
    set i | 0 <= i < |info.includedPath| + |prefix| :: Record(root, info, prefix, i)
  }

  /** The first `n` records. */
  function RecordsBelow(root: GExpr, info: RelatedObject, prefix: Path, n: int): (r: set<IncludedInfo>)
    ensures n == |info.includedPath| + |prefix| ==> r == IncludedRecords(root, info, prefix)
  {
    set i | 0 <= i < n :: Record(root, info, prefix, i)
  }

  /** One more record. */
  lemma RecordsBelowStep(root: GExpr, info: RelatedObject, prefix: Path, n: nat)
    ensures RecordsBelow(root, info, prefix, n + 1) == RecordsBelow(root, info, prefix, n) + {Record(root, info, prefix, n)}
  {
  }

  /** The `i`-th record: both paths shortened by `i` properties, the prefix kept in front. */
  function Record(root: GExpr, info: RelatedObject, prefix: Path, i: int): IncludedInfo
  {
    IncludedInfo(root, TakeN(info.fullPath, |info.fullPath| - i), prefix + TakeN(info.includedPath, |info.includedPath| - i))
  }

  /**
    The properties from an included access back towards the source: outermost
    first, stopping before an access declared outside data-access objects or
    equal to the current parent, and after the access made on the source itself.
  */
  function PrefixFrom(c: Config, parent: Option<GExpr>, current: GExpr): Result<Path, Error>
  {
    if !current.MemberAccess? then Ok([])
    else if Stops(c, parent, current) then Ok([])
    else if !current.prop.isProperty then Err(FieldInPrefix)
    else if current.target == c.source then Ok([current.prop])
    else
      var rest :- PrefixFrom(c, parent, current.target);
      Ok([current.prop] + rest)
  }

  // ---------------------------------------------------------------------------
  // The walk
  // ---------------------------------------------------------------------------

  /** Visits an expression, returning the reduced expression and the new state. */
  function Walk(c: Config, s: State, e: GExpr): Result<(GExpr, State), Error>
    decreases e, 2
  {
    match e
    case Parameter(_, _) => Ok((e, s))
    case Leaf(_, _) => Ok((e, s))
    case MemberAccess(_, _) =>
      var s' :- MemberAccessStep(c, s, e);
      Ok((e, s'))
    case Binary(op, ty, l, r) =>
      var left :- Walk(c, s.(disableCompare := true), l);
      var right :- Walk(c, left.1, r);
      Ok((Binary(op, ty, left.0, right.0), right.1.(disableCompare := s.disableCompare)))
    case Conditional(ty, test, a, b) =>
      var t :- Walk(c, s.(disableCompare := true), test);
      var x :- Walk(c, t.1.(disableCompare := s.disableCompare), a);
      var y :- Walk(c, x.1, b);
      var rebuilt := if t.0 != test || x.0 != a || y.0 != b then Conditional(ty, t.0, x.0, y.0) else e;
      Ok((rebuilt, y.1))
    case MethodCall(callee, ty, args) =>
      var visited :- WalkAll(c, s, args);
      Ok((MethodCall(callee, ty, visited.0), visited.1))
    case Include(_, _) => WalkInclude(c, s, e)
  }

  /** Visits a list of expressions in order. */
  function WalkAll(c: Config, s: State, es: seq<GExpr>): (r: Result<(seq<GExpr>, State), Error>)
    ensures r.Ok? ==> |r.value.0| == |es|
    decreases es, 0
  {
    if es == [] then Ok(([], s))
    else
      var first :- Walk(c, s, es[0]);
      var rest :- WalkAll(c, first.1, es[1..]);
      Ok(([first.0] + rest.0, rest.1))
  }

  /**
    An Include call: only allowed when gathering for a projection. The selector
    is walked with the source as current parent and a fresh referenced list. If
    it referenced nothing, the source is walked as it is, and the saved parent,
    list and nesting are not restored. Otherwise the first referenced object's
    records are added, rooted at the source parameter with the prefix path when
    nested inside another Include, or at the walked source otherwise.
  */
  function WalkInclude(c: Config, s: State, e: GExpr): Result<(GExpr, State), Error>
    requires e.Include?
    decreases e, 1
  {
    if !c.forProjection then Err(IncludeOutsideProjection)
    else
      var inner :- Walk(c, s.(currentParent := Some(e.source), referenced := [], nesting := s.nesting + 1), e.selector);
      IncludeRest(c, inner.1, e, s.referenced, s.currentParent)
  }

  /** What an Include call does once its selector has been walked into `s1`. */
  function IncludeRest(c: Config, s1: State, e: GExpr, outerReferenced: seq<RelatedObject>, outerParent: Option<GExpr>)
    : Result<(GExpr, State), Error>
    requires e.Include?
    decreases e, 0
  {
    if s1.referenced == [] then Walk(c, s1, e.source)
    else
      var info := s1.referenced[0];
      var visited :- Walk(c, s1.(referenced := outerReferenced, currentParent := outerParent), e.source);
      var retval := visited.0;
      var s2 := visited.1;
      if s2.nesting > 1 && retval != c.source && retval.MemberAccess? then
        var prefix :- PrefixFrom(c, s2.currentParent, retval);
        Ok((retval, s2.(included := s2.included + IncludedRecords(c.source, info, Reverse(prefix)), nesting := s2.nesting - 1)))
      else
        Ok((retval, s2.(included := s2.included + IncludedRecords(retval, info, []), nesting := s2.nesting - 1)))
  }

  /** The included records grouped by their root expression. */
  function GroupByRoot(included: set<IncludedInfo>): map<GExpr, set<IncludedInfo>>
  {
    map r | r in Roots(included) :: set x | x in included && x.root == r
  }

  function Roots(included: set<IncludedInfo>): set<GExpr>
  {
    set x | x in included :: x.root
  }

  /** What `Gather` hands back. */
  datatype Gathered = Gathered(
    reduced: seq<GExpr>,
    results: map<Path, RelatedObject>,
    rootByPath: map<Path, GExpr>,
    includedByRoot: map<GExpr, set<IncludedInfo>>)

  /** Visits the expressions in order with one gatherer and collects its maps. */
  function Gather(model: TypeModel, es: seq<GExpr>, source: GExpr, forProjection: bool): Result<Gathered, Error>
  {
    var walked :- WalkAll(Config(model, source, forProjection), Initial, es);
    Ok(Gathered(walked.0, walked.1.results, walked.1.rootByPath, GroupByRoot(walked.1.included)))
  }

  // ---------------------------------------------------------------------------
  // Properties of the walk
  // ---------------------------------------------------------------------------

  /** Two related-object records are the same object: same paths, same object expression. */
  predicate SameObject(a: RelatedObject, b: RelatedObject)
  {
    a.fullPath == b.fullPath && a.includedPath == b.includedPath && a.objectExpression == b.objectExpression
  }

  /**
    `s'` keeps everything `s` has gathered: every registered path stays, with the
    same object (first writer wins), whose targets only grow; included records
    and root paths are only added, though the root expression stored for a
    path may be replaced by a later one.
  */
  predicate Extends(s: State, s': State)
  {
    (forall p :: p in s.results ==>
      p in s'.results && SameObject(s.results[p], s'.results[p]) && s.results[p].targets <= s'.results[p].targets)
    && s.included <= s'.included
    && s.rootByPath.Keys <= s'.rootByPath.Keys
  }

  predicate IsSuffix(a: Path, p: Path)
  {
    |a| <= |p| && a == p[|p| - |a|..]
  }

  /**
    Every registered object is filed under its own full path, its included path
    is a suffix of it, and every object on the referenced list is the one filed
    under its path.
  */
  predicate Consistent(s: State)
  {
    (forall p :: p in s.results ==> s.results[p].fullPath == p && IsSuffix(s.results[p].includedPath, p))
    && (forall k :: 0 <= k < |s.referenced| ==>
          s.referenced[k].fullPath in s.results && SameObject(s.results[s.referenced[k].fullPath], s.referenced[k]))
  }

  predicate Grows(s: State, s': State)
  {
    Extends(s, s') && (Consistent(s) ==> Consistent(s'))
  }

  lemma GrowsTrans(s1: State, s2: State, s3: State)
    requires Grows(s1, s2) && Grows(s2, s3)
    ensures Grows(s1, s3)
  {
  }

  /** Referencing a path's object, found or newly made, grows the state. */
  lemma ReferenceGrows(s: State, path: Path, info: RelatedObject, target: set<GExpr>)
    requires path in s.results ==> info == s.results[path]
    requires path !in s.results ==> info.fullPath == path && IsSuffix(info.includedPath, path)
    ensures Grows(s, Reference(s, path, info, target))
  {
    var s' := Reference(s, path, info, target);
    assert Extends(s, s');
    if Consistent(s) {
      assert s'.referenced[|s.referenced|] == info;
      assert Consistent(s');
    }
  }

  /** One pass grows the state and leaves the flag, parent and nesting alone. */
  lemma RegisterStepGrows(c: Config, s: State, m: GExpr, expr: GExpr, projection: bool,
                          rev: seq<GExpr>, skip: int, root: GExpr, i: nat)
    requires m.MemberAccess? && AllAccesses(rev) && i < |rev|
    ensures match RegisterStep(c, s, m, expr, projection, rev, skip, root, i)
            case Next(s') => Grows(s, s') && SameControl(s, s')
            case Stop(Ok(s')) => Grows(s, s') && SameControl(s, s')
            case Stop(Err(_)) => true
  {
    var path := PathAt(rev, i);
    var made := Lookup(s, path, rev, skip, root, i);
    var cur := rev[|rev| - 1 - i];
    if !c.model.isDataAccessObject(path[|path| - 1].reflectedType) {
      var s' := s.(rootByPath := s.rootByPath[path := cur]);
      assert RegisterStep(c, s, m, expr, projection, rev, skip, root, i) == Stop(Ok(s'));
      RootGrows(s, path, cur);
    } else if made.Ok? {
      var s' := Reference(s, path, made.value, TargetOf(m, expr, projection, cur));
      assert RegisterStep(c, s, m, expr, projection, rev, skip, root, i) == Next(s');
      LookupFits(s, path, rev, skip, root, i);
      ReferenceGrows(s, path, made.value, TargetOf(m, expr, projection, cur));
    }
  }

  /** A looked-up object is the one already filed, or a new one for the path whose included path ends it. */
  lemma LookupFits(s: State, path: Path, rev: seq<GExpr>, skip: int, root: GExpr, i: nat)
    requires Lookup(s, path, rev, skip, root, i).Ok?
    ensures path in s.results ==> Lookup(s, path, rev, skip, root, i).value == s.results[path]
    ensures path !in s.results ==>
      Lookup(s, path, rev, skip, root, i).value.fullPath == path &&
      IsSuffix(Lookup(s, path, rev, skip, root, i).value.includedPath, path)
    ensures path !in s.results ==>
      Lookup(s, path, rev, skip, root, i).value.objectExpression == (if i + skip - 1 < 0 then root else rev[i + skip - 1])
  {
  }

  /** Recording a root expression grows the state. */
  lemma RootGrows(s: State, path: Path, cur: GExpr)
    ensures Grows(s, s.(rootByPath := s.rootByPath[path := cur]))
  {
    var s' := s.(rootByPath := s.rootByPath[path := cur]);
    assert s'.results == s.results && s'.referenced == s.referenced;
  }

  /** The flag, the current parent and the nesting are those of `s`. */
  predicate SameControl(s: State, s': State)
  {
    s'.disableCompare == s.disableCompare && s'.currentParent == s.currentParent && s'.nesting == s.nesting
  }

  /** The registration loop grows the state and leaves the flag, parent and nesting alone. */
  lemma {:induction false} RegisterFromGrows(c: Config, s: State, m: GExpr, expr: GExpr, projection: bool,
                                             rev: seq<GExpr>, skip: int, root: GExpr, i: nat)
    requires m.MemberAccess? && AllAccesses(rev)
    ensures RegisterFrom(c, s, m, expr, projection, rev, skip, root, i).Ok? ==>
      var s' := RegisterFrom(c, s, m, expr, projection, rev, skip, root, i).value;
      Grows(s, s') && SameControl(s, s')
    decreases |rev| - i
  {
    if i < |rev| {
      RegisterFromUnfolds(c, s, m, expr, projection, rev, skip, root, i);
      RegisterStepGrows(c, s, m, expr, projection, rev, skip, root, i);
      match RegisterStep(c, s, m, expr, projection, rev, skip, root, i)
      case Stop(_) =>
      case Next(s') =>
        RegisterFromGrows(c, s', m, expr, projection, rev, skip, root, i + 1);
        if RegisterFrom(c, s', m, expr, projection, rev, skip, root, i + 1).Ok? {
          GrowsTrans(s, s', RegisterFrom(c, s', m, expr, projection, rev, skip, root, i + 1).value);
        }
    }
  }

  lemma RegisterGrows(c: Config, s: State, m: GExpr, expr: GExpr, projection: bool)
    requires m.MemberAccess?
    ensures Register(c, s, m, expr, projection).Ok? ==>
      Grows(s, Register(c, s, m, expr, projection).value) && SameControl(s, Register(c, s, m, expr, projection).value)
  {
    var visited := Chain(expr);
    ChainShape(expr);
    RegisterFromGrows(c, s, m, expr, projection, Reverse(visited), SkipOf(c, s.currentParent, visited),
                      RootOf(c, s.currentParent, visited, ChainRoot(m.target, visited)), 0);
  }

  lemma VisitMemberAccessGrows(c: Config, s: State, m: GExpr)
    requires m.MemberAccess?
    ensures MemberAccessStep(c, s, m).Ok? ==>
      var s' := MemberAccessStep(c, s, m).value;
      Grows(s, s') && s'.disableCompare == s.disableCompare
  {
    if c.model.isDataAccessObject(m.prop.memberType) {
      RegisterGrows(c, s, m, m, true);
    } else {
      RegisterGrows(c, s, m, m.target, false);
    }
  }

  /** The access the `i`-th pass of the registration loop looks at, counted from the outside. */
  function PassAccess(rev: seq<GExpr>, i: nat): (x: GExpr)
    requires AllAccesses(rev) && i < |rev|
    ensures x.MemberAccess?
  {
    rev[|rev| - 1 - i]
  }

  /**
    What one pass files. At an access declared outside data-access objects it
    records that access as the root expression of its path and ends the loop.
    Otherwise it files the object the lookup gives, with the pass's targets
    added, under the path, appends it to the referenced list, and goes on; or it
    ends the loop with the lookup's error.
  */
  lemma RegisterStepFiles(c: Config, s: State, m: GExpr, expr: GExpr, projection: bool,
                          rev: seq<GExpr>, skip: int, root: GExpr, i: nat)
    requires m.MemberAccess? && AllAccesses(rev) && i < |rev|
    ensures var path, cur := PathAt(rev, i), rev[|rev| - 1 - i];
      var step := RegisterStep(c, s, m, expr, projection, rev, skip, root, i);
      var made := Lookup(s, path, rev, skip, root, i);
      && (!c.model.isDataAccessObject(cur.prop.reflectedType) ==>
            step == Stop(Ok(s.(rootByPath := s.rootByPath[path := cur]))))
      && (c.model.isDataAccessObject(cur.prop.reflectedType) && made.Err? ==> step == Stop(Err(made.error)))
      && (c.model.isDataAccessObject(cur.prop.reflectedType) && made.Ok? ==>
            && step.Next?
            && path in step.state.results
            && step.state.results[path] == made.value.(targets := made.value.targets + TargetOf(m, expr, projection, cur))
            && step.state.referenced == s.referenced + [made.value]
            && step.state.rootByPath == s.rootByPath)
  {
    PathAtEndsAtCurrent(rev, i);
  }

  /**
    The registration loop from pass `i` on, when pass `stop` is the first whose
    access is declared outside data-access objects (or `stop` is the end of the
    chain): the path of every pass before `stop` ends up filed in `results`, and
    the access of pass `stop` is recorded as the root expression of its path.
  */
  lemma RegisterFromFiles(c: Config, s: State, m: GExpr, expr: GExpr, projection: bool,
                          rev: seq<GExpr>, skip: int, root: GExpr, i: nat, stop: nat)
    requires m.MemberAccess? && AllAccesses(rev) && i <= stop <= |rev|
    requires forall j :: i <= j < stop ==> c.model.isDataAccessObject(PassAccess(rev, j).prop.reflectedType)
    requires stop < |rev| ==> !c.model.isDataAccessObject(PassAccess(rev, stop).prop.reflectedType)
    requires RegisterFrom(c, s, m, expr, projection, rev, skip, root, i).Ok?
    ensures var s' := RegisterFrom(c, s, m, expr, projection, rev, skip, root, i).value;
      && (forall j :: i <= j < stop ==> PathAt(rev, j) in s'.results)
      && (stop < |rev| ==> PathAt(rev, stop) in s'.rootByPath && s'.rootByPath[PathAt(rev, stop)] == PassAccess(rev, stop))
  {
    RegisterFromFilesPaths(c, s, m, expr, projection, rev, skip, root, i, stop);
    if stop < |rev| {
      RegisterFromFilesRoot(c, s, m, expr, projection, rev, skip, root, i, stop);
    }
  }

  /** The first half of RegisterFromFiles: the paths of the passes before `stop` are filed. */
  lemma {:induction false} RegisterFromFilesPaths(c: Config, s: State, m: GExpr, expr: GExpr, projection: bool,
                                                  rev: seq<GExpr>, skip: int, root: GExpr, i: nat, stop: nat)
    requires m.MemberAccess? && AllAccesses(rev) && i <= stop <= |rev|
    requires forall j :: i <= j < stop ==> c.model.isDataAccessObject(PassAccess(rev, j).prop.reflectedType)
    requires RegisterFrom(c, s, m, expr, projection, rev, skip, root, i).Ok?
    ensures forall j :: i <= j < stop ==> PathAt(rev, j) in RegisterFrom(c, s, m, expr, projection, rev, skip, root, i).value.results
    decreases |rev| - i
  {
    if i < stop {
      RegisterPassFiles(c, s, m, expr, projection, rev, skip, root, i);
      var s1 := RegisterStep(c, s, m, expr, projection, rev, skip, root, i).state;
      var s' := RegisterFrom(c, s1, m, expr, projection, rev, skip, root, i + 1).value;
      RegisterFromFilesPaths(c, s1, m, expr, projection, rev, skip, root, i + 1, stop);
      RegisterFromKeepsPaths(c, s1, m, expr, projection, rev, skip, root, i + 1);
      forall j | i <= j < stop
        ensures PathAt(rev, j) in s'.results
      {
        if j == i {
          assert PathAt(rev, j) in s1.results;
        }
      }
    }
  }

  /** The second half of RegisterFromFiles: the access of pass `stop` becomes its path's root expression. */
  lemma {:induction false} RegisterFromFilesRoot(c: Config, s: State, m: GExpr, expr: GExpr, projection: bool,
                                                 rev: seq<GExpr>, skip: int, root: GExpr, i: nat, stop: nat)
    requires m.MemberAccess? && AllAccesses(rev) && i <= stop < |rev|
    requires forall j :: i <= j < stop ==> c.model.isDataAccessObject(PassAccess(rev, j).prop.reflectedType)
    requires !c.model.isDataAccessObject(PassAccess(rev, stop).prop.reflectedType)
    requires RegisterFrom(c, s, m, expr, projection, rev, skip, root, i).Ok?
    ensures var s' := RegisterFrom(c, s, m, expr, projection, rev, skip, root, i).value;
      PathAt(rev, stop) in s'.rootByPath && s'.rootByPath[PathAt(rev, stop)] == PassAccess(rev, stop)
    decreases |rev| - i
  {
    if i == stop {
      RegisterStopFiles(c, s, m, expr, projection, rev, skip, root, i);
    } else {
      RegisterPassFiles(c, s, m, expr, projection, rev, skip, root, i);
      var s1 := RegisterStep(c, s, m, expr, projection, rev, skip, root, i).state;
      RegisterFromFilesRoot(c, s1, m, expr, projection, rev, skip, root, i + 1, stop);
    }
  }

  /** A successful pass over a data-access-object access files its path and hands its state to the next pass. */
  lemma RegisterPassFiles(c: Config, s: State, m: GExpr, expr: GExpr, projection: bool,
                          rev: seq<GExpr>, skip: int, root: GExpr, i: nat)
    requires m.MemberAccess? && AllAccesses(rev) && i < |rev|
    requires c.model.isDataAccessObject(PassAccess(rev, i).prop.reflectedType)
    requires RegisterFrom(c, s, m, expr, projection, rev, skip, root, i).Ok?
    ensures var step := RegisterStep(c, s, m, expr, projection, rev, skip, root, i);
      && step.Next?
      && PathAt(rev, i) in step.state.results
      && RegisterFrom(c, s, m, expr, projection, rev, skip, root, i)
           == RegisterFrom(c, step.state, m, expr, projection, rev, skip, root, i + 1)
  {
    RegisterFromUnfolds(c, s, m, expr, projection, rev, skip, root, i);
    RegisterStepFiles(c, s, m, expr, projection, rev, skip, root, i);
  }

  /** A pass over an access declared outside data-access objects ends the loop, recording that access as its path's root. */
  lemma RegisterStopFiles(c: Config, s: State, m: GExpr, expr: GExpr, projection: bool,
                          rev: seq<GExpr>, skip: int, root: GExpr, i: nat)
    requires m.MemberAccess? && AllAccesses(rev) && i < |rev|
    requires !c.model.isDataAccessObject(PassAccess(rev, i).prop.reflectedType)
    ensures RegisterFrom(c, s, m, expr, projection, rev, skip, root, i)
              == Ok(s.(rootByPath := s.rootByPath[PathAt(rev, i) := PassAccess(rev, i)]))
  {
    RegisterFromUnfolds(c, s, m, expr, projection, rev, skip, root, i);
    RegisterStepFiles(c, s, m, expr, projection, rev, skip, root, i);
  }

  /** The registration loop never drops a filed path. */
  lemma {:induction false} RegisterFromKeepsPaths(c: Config, s: State, m: GExpr, expr: GExpr, projection: bool,
                                                  rev: seq<GExpr>, skip: int, root: GExpr, i: nat)
    requires m.MemberAccess? && AllAccesses(rev)
    ensures RegisterFrom(c, s, m, expr, projection, rev, skip, root, i).Ok? ==>
      s.results.Keys <= RegisterFrom(c, s, m, expr, projection, rev, skip, root, i).value.results.Keys
    decreases |rev| - i
  {
    if i < |rev| {
      RegisterFromUnfolds(c, s, m, expr, projection, rev, skip, root, i);
      match RegisterStep(c, s, m, expr, projection, rev, skip, root, i)
      case Stop(_) =>
      case Next(s1) =>
        RegisterFromKeepsPaths(c, s1, m, expr, projection, rev, skip, root, i + 1);
    }
  }

  /**
    Registering the chain that starts at `expr`: when its first `stop` accesses,
    outermost first, are declared in data-access objects and the next one (if
    any) is not, the path up to each of those accesses is filed in `results`,
    and the access where the chain stops is the root expression of its path.
  */
  lemma RegisterFilesChain(c: Config, s: State, m: GExpr, expr: GExpr, projection: bool, stop: nat)
    requires m.MemberAccess? && stop <= |Chain(expr)|
    requires forall j :: 0 <= j < stop ==> c.model.isDataAccessObject(Chain(expr)[j].prop.reflectedType)
    requires stop < |Chain(expr)| ==> !c.model.isDataAccessObject(Chain(expr)[stop].prop.reflectedType)
    requires Register(c, s, m, expr, projection).Ok?
    ensures var rev := Reverse(Chain(expr));
      && AllAccesses(rev)
      && (forall j :: 0 <= j < stop ==> PathAt(rev, j) in Register(c, s, m, expr, projection).value.results)
      && (stop < |rev| ==> (PathAt(rev, stop) in Register(c, s, m, expr, projection).value.rootByPath
                          && Register(c, s, m, expr, projection).value.rootByPath[PathAt(rev, stop)] == Chain(expr)[stop]))
  {
    var visited := Chain(expr);
    ChainShape(expr);
    var rev := Reverse(visited);
    assert forall j :: 0 <= j < |rev| ==> PassAccess(rev, j) == visited[j];
    RegisterFromFiles(c, s, m, expr, projection, rev, SkipOf(c, s.currentParent, visited),
                      RootOf(c, s.currentParent, visited, ChainRoot(m.target, visited)), 0, stop);
  }

  /**
    An access typed as a data-access object, gathered for a projection,
    registers its own chain: every path up to an access before the first one
    declared outside data-access objects is filed, the access's own full path
    first among them, and that first outside access is recorded as a root.
  */
  lemma ProjectionAccessRegistersChain(c: Config, s: State, m: GExpr, stop: nat)
    requires m.MemberAccess? && c.forProjection && c.model.isDataAccessObject(m.prop.memberType)
    requires stop <= |Chain(m)|
    requires forall j :: 0 <= j < stop ==> c.model.isDataAccessObject(Chain(m)[j].prop.reflectedType)
    requires stop < |Chain(m)| ==> !c.model.isDataAccessObject(Chain(m)[stop].prop.reflectedType)
    requires MemberAccessStep(c, s, m).Ok?
    ensures var rev := Reverse(Chain(m));
      && AllAccesses(rev)
      && (forall j :: 0 <= j < stop ==> PathAt(rev, j) in MemberAccessStep(c, s, m).value.results)
      && (stop < |rev| ==> (PathAt(rev, stop) in MemberAccessStep(c, s, m).value.rootByPath
                          && MemberAccessStep(c, s, m).value.rootByPath[PathAt(rev, stop)] == Chain(m)[stop]))
  {
    RegisterFilesChain(c, s, m, m, true, stop);
  }

  /**
    Any other access to a non-key property of a described type registers the
    chain of its target in the same way.
  */
  lemma TargetAccessRegistersChain(c: Config, s: State, m: GExpr, stop: nat)
    requires m.MemberAccess? && !c.model.isDataAccessObject(m.prop.memberType)
    requires c.model.hasDescriptor(TypeOf(m.target)) && !c.model.isPrimaryKey(TypeOf(m.target), m.prop.name)
    requires stop <= |Chain(m.target)|
    requires forall j :: 0 <= j < stop ==> c.model.isDataAccessObject(Chain(m.target)[j].prop.reflectedType)
    requires stop < |Chain(m.target)| ==> !c.model.isDataAccessObject(Chain(m.target)[stop].prop.reflectedType)
    requires MemberAccessStep(c, s, m).Ok?
    ensures var rev := Reverse(Chain(m.target));
      && AllAccesses(rev)
      && (forall j :: 0 <= j < stop ==> PathAt(rev, j) in MemberAccessStep(c, s, m).value.results)
      && (stop < |rev| ==> (PathAt(rev, stop) in MemberAccessStep(c, s, m).value.rootByPath
                          && MemberAccessStep(c, s, m).value.rootByPath[PathAt(rev, stop)] == Chain(m.target)[stop]))
  {
    RegisterFilesChain(c, s, m, m.target, false, stop);
  }

  /**
    Walking an expression only grows what has been gathered (first writer wins
    on every result path, root paths are only added, and consistency is kept),
    and it leaves the disable-compare flag as it found it.
  */
  lemma {:induction false} WalkGrows(c: Config, s: State, e: GExpr)
    ensures Walk(c, s, e).Ok? ==> Grows(s, Walk(c, s, e).value.1) && Walk(c, s, e).value.1.disableCompare == s.disableCompare
    decreases e, 2
  {
    match e
    case Parameter(_, _) =>
    case Leaf(_, _) =>
    case MemberAccess(_, _) => VisitMemberAccessGrows(c, s, e);
    case Binary(_, _, _, _) => BinaryGrows(c, s, e);
    case Conditional(_, _, _, _) => ConditionalGrows(c, s, e);
    case MethodCall(callee, ty, args) => WalkAllGrows(c, s, args);
    case Include(_, _) => WalkIncludeGrows(c, s, e);
  }

  lemma {:induction false} BinaryGrows(c: Config, s: State, e: GExpr)
    requires e.Binary?
    ensures Walk(c, s, e).Ok? ==> Grows(s, Walk(c, s, e).value.1) && Walk(c, s, e).value.1.disableCompare == s.disableCompare
    ensures Walk(c, s, e).Ok? ==>
      var left := Walk(c, s.(disableCompare := true), e.left);
      && left.Ok? && left.value.1.disableCompare
      && Walk(c, left.value.1, e.right).Ok?
      && Walk(c, s, e).value.0 == Binary(e.op, e.ty, left.value.0, Walk(c, left.value.1, e.right).value.0)
    decreases e, 1
  {
    var s1 := s.(disableCompare := true);
    WalkGrows(c, s1, e.left);
    if Walk(c, s1, e.left).Ok? {
      var left := Walk(c, s1, e.left).value;
      WalkGrows(c, left.1, e.right);
      if Walk(c, left.1, e.right).Ok? {
        var right := Walk(c, left.1, e.right).value;
        GrowsTrans(s, s1, left.1);
        GrowsTrans(s, left.1, right.1);
        GrowsTrans(s, right.1, right.1.(disableCompare := s.disableCompare));
      }
    }
  }

  lemma {:induction false} ConditionalGrows(c: Config, s: State, e: GExpr)
    requires e.Conditional?
    ensures Walk(c, s, e).Ok? ==> Grows(s, Walk(c, s, e).value.1) && Walk(c, s, e).value.1.disableCompare == s.disableCompare
    ensures Walk(c, s, e).Ok? ==>
      var t := Walk(c, s.(disableCompare := true), e.test);
      && t.Ok? && t.value.1.disableCompare
      && (var x := Walk(c, t.value.1.(disableCompare := s.disableCompare), e.ifTrue);
          x.Ok? && x.value.1.disableCompare == s.disableCompare && Walk(c, x.value.1, e.ifFalse).Ok?)
    decreases e, 1
  {
    var s1 := s.(disableCompare := true);
    WalkGrows(c, s1, e.test);
    if Walk(c, s1, e.test).Ok? {
      var t := Walk(c, s1, e.test).value;
      var s2 := t.1.(disableCompare := s.disableCompare);
      GrowsTrans(s, s1, t.1);
      GrowsTrans(s, t.1, s2);
      WalkGrows(c, s2, e.ifTrue);
      if Walk(c, s2, e.ifTrue).Ok? {
        var x := Walk(c, s2, e.ifTrue).value;
        GrowsTrans(s, s2, x.1);
        WalkGrows(c, x.1, e.ifFalse);
        if Walk(c, x.1, e.ifFalse).Ok? {
          GrowsTrans(s, x.1, Walk(c, x.1, e.ifFalse).value.1);
        }
      }
    }
  }

  lemma {:induction false} WalkAllGrows(c: Config, s: State, es: seq<GExpr>)
    ensures WalkAll(c, s, es).Ok? ==> Grows(s, WalkAll(c, s, es).value.1) && WalkAll(c, s, es).value.1.disableCompare == s.disableCompare
    decreases es, 0
  {
    if es != [] {
      WalkGrows(c, s, es[0]);
      if Walk(c, s, es[0]).Ok? {
        var first := Walk(c, s, es[0]).value;
        WalkAllGrows(c, first.1, es[1..]);
        if WalkAll(c, first.1, es[1..]).Ok? {
          GrowsTrans(s, first.1, WalkAll(c, first.1, es[1..]).value.1);
        }
      }
    }
  }

  lemma {:induction false} WalkIncludeGrows(c: Config, s: State, e: GExpr)
    requires e.Include?
    ensures WalkInclude(c, s, e).Ok? ==> Grows(s, WalkInclude(c, s, e).value.1) && WalkInclude(c, s, e).value.1.disableCompare == s.disableCompare
    decreases e, 1
  {
    if c.forProjection {
      var s0 := s.(currentParent := Some(e.source), referenced := [], nesting := s.nesting + 1);
      assert Grows(s, s0);
      WalkGrows(c, s0, e.selector);
      if Walk(c, s0, e.selector).Ok? {
        var s1 := Walk(c, s0, e.selector).value.1;
        GrowsTrans(s, s0, s1);
        IncludeRestGrows(c, s, s1, e);
      }
    }
  }

  lemma {:induction false} IncludeRestGrows(c: Config, s: State, s1: State, e: GExpr)
    requires e.Include? && Grows(s, s1) && s1.disableCompare == s.disableCompare
    ensures var w := IncludeRest(c, s1, e, s.referenced, s.currentParent);
      w.Ok? ==> Grows(s, w.value.1) && w.value.1.disableCompare == s.disableCompare
    decreases e, 0
  {
    if s1.referenced == [] {
      WalkGrows(c, s1, e.source);
      if Walk(c, s1, e.source).Ok? {
        GrowsTrans(s, s1, Walk(c, s1, e.source).value.1);
      }
    } else {
      var s3 := s1.(referenced := s.referenced, currentParent := s.currentParent);
      assert Grows(s, s3);
      WalkGrows(c, s3, e.source);
      if Walk(c, s3, e.source).Ok? {
        GrowsTrans(s, s3, Walk(c, s3, e.source).value.1);
      }
    }
  }

  /** An Include call outside a projection is an error. */
  lemma IncludeOutsideProjectionFails(c: Config, s: State, source: GExpr, selector: GExpr)
    requires !c.forProjection
    ensures Walk(c, s, Include(source, selector)) == Err(IncludeOutsideProjection)
  {
  }

  /**
    A member access comes back as it is, with nothing gathered, when it is typed
    as a data-access object outside a projection, when its target's type has no
    descriptor, or when it reads a primary-key property.
  */
  lemma MemberAccessRegistersNothing(c: Config, s: State, m: GExpr)
    requires m.MemberAccess?
    ensures c.model.isDataAccessObject(m.prop.memberType) && !c.forProjection ==> Walk(c, s, m) == Ok((m, s))
    ensures !c.model.isDataAccessObject(m.prop.memberType) && !c.model.hasDescriptor(TypeOf(m.target)) ==>
              Walk(c, s, m) == Ok((m, s))
    ensures !c.model.isDataAccessObject(m.prop.memberType) && c.model.hasDescriptor(TypeOf(m.target))
            && c.model.hasProperty(TypeOf(m.target), m.prop.name) && c.model.isPrimaryKey(TypeOf(m.target), m.prop.name) ==>
              Walk(c, s, m) == Ok((m, s))
  {
    WalkMemberAccess(c, s, m);
  }

  /** No Include call is left, except inside the target of a member access, which the walk does not enter. */
  predicate IncludeFree(e: GExpr)
  {
    match e
    case Include(_, _) => false
    case MemberAccess(_, _) => true
    case Binary(_, _, l, r) => IncludeFree(l) && IncludeFree(r)
    case Conditional(_, t, a, b) => IncludeFree(t) && IncludeFree(a) && IncludeFree(b)
    case MethodCall(_, _, args) => forall i :: 0 <= i < |args| ==> IncludeFree(args[i])
    case Parameter(_, _) => true
    case Leaf(_, _) => true
  }

  /**
    The reduced expression has no Include call left, and an expression that had
    none comes back as it went in.
  */
  lemma {:induction false} WalkReduces(c: Config, s: State, e: GExpr)
    ensures Walk(c, s, e).Ok? ==> IncludeFree(Walk(c, s, e).value.0)
    ensures Walk(c, s, e).Ok? && IncludeFree(e) ==> Walk(c, s, e).value.0 == e
    decreases e, 2
  {
    match e
    case Parameter(_, _) =>
    case Leaf(_, _) =>
    case MemberAccess(_, _) =>
    case Binary(op, ty, l, r) =>
      var s1 := s.(disableCompare := true);
      WalkReduces(c, s1, l);
      if Walk(c, s1, l).Ok? {
        WalkReduces(c, Walk(c, s1, l).value.1, r);
      }
    case Conditional(ty, test, a, b) =>
      var s1 := s.(disableCompare := true);
      WalkReduces(c, s1, test);
      if Walk(c, s1, test).Ok? {
        var t := Walk(c, s1, test).value;
        var s2 := t.1.(disableCompare := s.disableCompare);
        WalkReduces(c, s2, a);
        if Walk(c, s2, a).Ok? {
          WalkReduces(c, Walk(c, s2, a).value.1, b);
        }
      }
    case MethodCall(callee, ty, args) =>
      WalkAllReduces(c, s, args);
    case Include(_, _) =>
      WalkIncludeReduces(c, s, e);
  }

  lemma {:induction false} WalkAllReduces(c: Config, s: State, es: seq<GExpr>)
    ensures WalkAll(c, s, es).Ok? ==> forall i :: 0 <= i < |es| ==> IncludeFree(WalkAll(c, s, es).value.0[i])
    ensures WalkAll(c, s, es).Ok? && (forall i :: 0 <= i < |es| ==> IncludeFree(es[i])) ==> WalkAll(c, s, es).value.0 == es
    decreases es, 0
  {
    if es != [] {
      WalkReduces(c, s, es[0]);
      if Walk(c, s, es[0]).Ok? {
        var first := Walk(c, s, es[0]).value;
        WalkAllReduces(c, first.1, es[1..]);
        if WalkAll(c, first.1, es[1..]).Ok? {
          var rest := WalkAll(c, first.1, es[1..]).value;
          var out := WalkAll(c, s, es).value.0;
          assert out == [first.0] + rest.0;
          forall i | 0 <= i < |es|
            ensures IncludeFree(out[i])
          {
            if i > 0 {
              assert out[i] == rest.0[i - 1];
            }
          }
          if forall i :: 0 <= i < |es| ==> IncludeFree(es[i]) {
            assert forall i :: 0 <= i < |es| - 1 ==> es[1..][i] == es[i + 1];
            assert es == [es[0]] + es[1..];
          }
        }
      }
    }
  }

  /**
    An Include call reduces to its walked source: once the selector has been
    walked with the source as current parent and an empty referenced list, the
    source is walked, from the outer list and parent when the selector
    referenced something, and its result is the result of the call.
  */
  lemma {:induction false} WalkIncludeReduces(c: Config, s: State, e: GExpr)
    requires e.Include?
    ensures WalkInclude(c, s, e).Ok? ==> IncludeFree(WalkInclude(c, s, e).value.0)
    ensures WalkInclude(c, s, e).Ok? ==>
      var s0 := s.(currentParent := Some(e.source), referenced := [], nesting := s.nesting + 1);
      && Walk(c, s0, e.selector).Ok?
      && (var s1 := Walk(c, s0, e.selector).value.1;
          var start := if s1.referenced == [] then s1 else s1.(referenced := s.referenced, currentParent := s.currentParent);
          Walk(c, start, e.source).Ok? && WalkInclude(c, s, e).value.0 == Walk(c, start, e.source).value.0)
    decreases e, 1
  {
    if c.forProjection {
      var s0 := s.(currentParent := Some(e.source), referenced := [], nesting := s.nesting + 1);
      if Walk(c, s0, e.selector).Ok? {
        IncludeRestReduces(c, Walk(c, s0, e.selector).value.1, e, s.referenced, s.currentParent);
      }
    }
  }

  /**
    The rest of an Include call. With nothing referenced by the selector it is
    the walk of the source. Otherwise the source is walked from the outer list
    and parent, its result is returned, and the state after it changes only by
    added included records and a nesting one lower.
  */
  lemma {:induction false} IncludeRestReduces(c: Config, s1: State, e: GExpr, outerReferenced: seq<RelatedObject>, outerParent: Option<GExpr>)
    requires e.Include?
    ensures var w := IncludeRest(c, s1, e, outerReferenced, outerParent);
      w.Ok? ==> IncludeFree(w.value.0)
    ensures s1.referenced == [] ==> IncludeRest(c, s1, e, outerReferenced, outerParent) == Walk(c, s1, e.source)
    ensures var w := IncludeRest(c, s1, e, outerReferenced, outerParent);
      var v := Walk(c, s1.(referenced := outerReferenced, currentParent := outerParent), e.source);
      s1.referenced != [] && w.Ok? ==>
        && v.Ok? && w.value.0 == v.value.0
        && w.value.1.nesting == v.value.1.nesting - 1
        && v.value.1.included <= w.value.1.included
        && w.value.1.(included := v.value.1.included, nesting := v.value.1.nesting) == v.value.1
    decreases e, 0
  {
    if s1.referenced == [] {
      WalkReduces(c, s1, e.source);
    } else {
      WalkReduces(c, s1.(referenced := outerReferenced, currentParent := outerParent), e.source);
    }
  }

  /**
    Which records an Include call adds, and against which root. When the call
    is nested and the visited source is a member access other than the source
    parameter, the selector's first object is recorded against the source
    parameter, behind the reversed prefix from the current parent; otherwise it
    is recorded against the visited source itself with no prefix. Nothing else
    is added.
  */
  lemma IncludeRestRecords(c: Config, s1: State, e: GExpr, outerReferenced: seq<RelatedObject>, outerParent: Option<GExpr>)
    requires e.Include? && s1.referenced != []
    ensures var w := IncludeRest(c, s1, e, outerReferenced, outerParent);
      var v := Walk(c, s1.(referenced := outerReferenced, currentParent := outerParent), e.source);
      w.Ok? ==>
        && v.Ok?
        && (v.value.1.nesting > 1 && v.value.0 != c.source && v.value.0.MemberAccess? ==>
              && PrefixFrom(c, v.value.1.currentParent, v.value.0).Ok?
              && w.value.1.included == v.value.1.included
                   + IncludedRecords(c.source, s1.referenced[0], Reverse(PrefixFrom(c, v.value.1.currentParent, v.value.0).value)))
        && (!(v.value.1.nesting > 1 && v.value.0 != c.source && v.value.0.MemberAccess?) ==>
              w.value.1.included == v.value.1.included + IncludedRecords(v.value.0, s1.referenced[0], []))
  {
  }

  /**
    The records an Include adds: at most one per property of the prefix and the
    included path; each is rooted at `root`, has a leading part of the full path
    and, after the prefix, a leading part of the included path; the first keeps
    both paths whole.
  */
  lemma IncludedRecordsShape(root: GExpr, info: RelatedObject, prefix: Path)
    ensures |IncludedRecords(root, info, prefix)| <= |info.includedPath| + |prefix|
    ensures |info.includedPath| + |prefix| > 0 ==>
      IncludedInfo(root, info.fullPath, prefix + info.includedPath) in IncludedRecords(root, info, prefix)
    ensures forall x :: x in IncludedRecords(root, info, prefix) ==>
      x.root == root && x.fullPath == info.fullPath[..|x.fullPath|]
      && |prefix| <= |x.includedPath| && x.includedPath[..|prefix|] == prefix
      && x.includedPath[|prefix|..] == info.includedPath[..|x.includedPath| - |prefix|]
  {
    var n := |info.includedPath| + |prefix|;
    if n > 0 {
      assert Record(root, info, prefix, 0) == IncludedInfo(root, info.fullPath, prefix + info.includedPath);
    }
    CardinalityOfImage(root, info, prefix, n);
  }

  /** A set of records indexed by `0 <= i < n` has at most `n` elements. */
  lemma {:induction false} CardinalityOfImage(root: GExpr, info: RelatedObject, prefix: Path, n: nat)
    ensures |set i | 0 <= i < n :: Record(root, info, prefix, i)| <= n
  {
    if n > 0 {
      CardinalityOfImage(root, info, prefix, n - 1);
      assert (set i | 0 <= i < n :: Record(root, info, prefix, i))
          == (set i | 0 <= i < n - 1 :: Record(root, info, prefix, i)) + {Record(root, info, prefix, n - 1)};
    }
  }

  /** Grouping by root places every record under its own root, and every group is non-empty. */
  lemma GroupByRootPartitions(included: set<IncludedInfo>)
    ensures forall x :: x in included ==> x.root in GroupByRoot(included) && x in GroupByRoot(included)[x.root]
    ensures forall r :: r in GroupByRoot(included) ==>
      GroupByRoot(included)[r] != {} && forall x :: x in GroupByRoot(included)[r] ==> x in included && x.root == r
  {
    forall r | r in GroupByRoot(included)
      ensures GroupByRoot(included)[r] != {}
    {
      var x :| x in included && x.root == r;
      assert x in GroupByRoot(included)[r];
    }
  }

  /**
    Gathering reduces the expressions one for one, with no Include call left;
    expressions without Include calls come back as they went in.
  */
  lemma GatherReduces(model: TypeModel, es: seq<GExpr>, source: GExpr, forProjection: bool)
    ensures Gather(model, es, source, forProjection).Ok? ==>
      var reduced := Gather(model, es, source, forProjection).value.reduced;
      |reduced| == |es| && (forall i :: 0 <= i < |es| ==> IncludeFree(reduced[i]))
      && ((forall i :: 0 <= i < |es| ==> IncludeFree(es[i])) ==> reduced == es)
  {
    WalkAllReduces(Config(model, source, forProjection), Initial, es);
  }

  /**
    Gathering files every related object under its own full path, with an
    included path that is a suffix of it.
  */
  lemma GatherConsistent(model: TypeModel, es: seq<GExpr>, source: GExpr, forProjection: bool)
    ensures Gather(model, es, source, forProjection).Ok? ==>
      var results := Gather(model, es, source, forProjection).value.results;
      forall p :: p in results ==> results[p].fullPath == p && IsSuffix(results[p].includedPath, p)
  {
    WalkAllGrows(Config(model, source, forProjection), Initial, es);
  }

  // ---------------------------------------------------------------------------
  // The gatherer object
  // ---------------------------------------------------------------------------

  /** A visit method's outcome agrees with the walk: the same error, or the same expression and new state. */
  predicate Agrees<T(==)>(w: Result<(T, State), Error>, r: Result<T, Error>, s: State)
  {
    match w
    case Ok(v) => r == Ok(v.0) && s == v.1
    case Err(x) => r == Err(x)
  }

  /** A member-access visit agrees with the registration: the same error, or the access itself and the new state. */
  predicate AgreesState(w: Result<State, Error>, r: Result<GExpr, Error>, m: GExpr, s: State)
  {
    match w
    case Ok(s') => r == Ok(m) && s == s'
    case Err(x) => r == Err(x)
  }

  /** Prepends the properties collected so far to the rest of a prefix walk. */
  function Prepend(props: Path, rest: Result<Path, Error>): Result<Path, Error>
  {
    match rest
    case Ok(p) => Ok(props + p)
    case Err(x) => Err(x)
  }

  lemma PrependEmpty(w: Result<Path, Error>)
    ensures Prepend([], w) == w
  {
    if w.Ok? {
      assert [] + w.value == w.value;
    }
  }

  lemma PrependStep(props: Path, x: Prop, w: Result<Path, Error>)
    ensures Prepend(props, Prepend([x], w)) == Prepend(props + [x], w)
  {
    if w.Ok? {
      assert props + ([x] + w.value) == (props + [x]) + w.value;
    }
  }

  /** The gatherer: its fields are updated in place by the visit methods, which do what `Walk` says. */
  class Gatherer {
    const model: TypeModel
    const source: GExpr
    const forProjection: bool
    var disableCompare: bool
    var currentParent: Option<GExpr>
    var nesting: int
    var referenced: seq<RelatedObject>
    var included: set<IncludedInfo>
    var rootByPath: map<Path, GExpr>
    var results: map<Path, RelatedObject>

    function Cfg(): Config
    {
      Config(model, source, forProjection)
    }

    function Snapshot(): State
      reads this
    {
      State(disableCompare, currentParent, nesting, referenced, included, rootByPath, results)
    }

    constructor(model: TypeModel, source: GExpr, forProjection: bool)
      ensures Cfg() == Config(model, source, forProjection) && Snapshot() == Initial
    {
      this.model := model;
      this.source := source;
      this.forProjection := forProjection;
      disableCompare := false;
      currentParent := None;
      nesting := 0;
      referenced := [];
      included := {};
      rootByPath := map[];
      results := map[];
    }

    method Visit(e: GExpr) returns (r: Result<GExpr, Error>)
      modifies this
      ensures Agrees(Walk(Cfg(), old(Snapshot()), e), r, Snapshot())
      decreases e, 2
    {
      match e
      case Parameter(_, _) =>
        r := Ok(e);
      case Leaf(_, _) =>
        r := Ok(e);
      case MemberAccess(_, _) =>
        r := VisitMemberAccess(e);
        WalkMemberAccess(Cfg(), old(Snapshot()), e);
      case Binary(op, ty, left, right) =>
        var saved := disableCompare;
        disableCompare := true;
        var l := Visit(left);
        if l.Err? {
          return Err(l.error);
        }
        var rt := Visit(right);
        if rt.Err? {
          return Err(rt.error);
        }
        disableCompare := saved;
        r := Ok(Binary(op, ty, l.value, rt.value));
      case Conditional(ty, test, ifTrue, ifFalse) =>
        var saved := disableCompare;
        disableCompare := true;
        var t := Visit(test);
        if t.Err? {
          return Err(t.error);
        }
        disableCompare := saved;
        var a := Visit(ifTrue);
        if a.Err? {
          return Err(a.error);
        }
        var b := Visit(ifFalse);
        if b.Err? {
          return Err(b.error);
        }
        if t.value != test || a.value != ifTrue || b.value != ifFalse {
          r := Ok(Conditional(ty, t.value, a.value, b.value));
        } else {
          r := Ok(e);
        }
      case MethodCall(callee, ty, args) =>
        var visited := VisitAll(args);
        if visited.Err? {
          return Err(visited.error);
        }
        r := Ok(MethodCall(callee, ty, visited.value));
      case Include(_, _) =>
        r := VisitInclude(e);
    }

    method VisitAll(es: seq<GExpr>) returns (r: Result<seq<GExpr>, Error>)
      modifies this
      ensures Agrees(WalkAll(Cfg(), old(Snapshot()), es), r, Snapshot())
      decreases es, 0
    {
      if es == [] {
        return Ok([]);
      }
      var first := Visit(es[0]);
      if first.Err? {
        return Err(first.error);
      }
      var rest := VisitAll(es[1..]);
      if rest.Err? {
        return Err(rest.error);
      }
      r := Ok([first.value] + rest.value);
    }

    method VisitInclude(e: GExpr) returns (r: Result<GExpr, Error>)
      requires e.Include?
      modifies this
      ensures Agrees(WalkInclude(Cfg(), old(Snapshot()), e), r, Snapshot())
      decreases e, 1
    {
      if !forProjection {
        return Err(IncludeOutsideProjection);
      }
      var originalReferenced := referenced;
      var originalParent := currentParent;
      currentParent := Some(e.source);
      referenced := [];
      nesting := nesting + 1;
      var inner := Visit(e.selector);
      if inner.Err? {
        return Err(inner.error);
      }
      r := FinishInclude(e, originalReferenced, originalParent);
    }

    /** The part of an Include call after its selector has been visited. */
    method FinishInclude(e: GExpr, originalReferenced: seq<RelatedObject>, originalParent: Option<GExpr>)
      returns (r: Result<GExpr, Error>)
      requires e.Include?
      modifies this
      ensures Agrees(IncludeRest(Cfg(), old(Snapshot()), e, originalReferenced, originalParent), r, Snapshot())
      decreases e, 0
    {
      if referenced == [] {
        // returns without restoring the parent, the list or the nesting
        r := Visit(e.source);
        return;
      }
      var info := referenced[0];
      referenced := originalReferenced;
      currentParent := originalParent;
      var visited := Visit(e.source);
      if visited.Err? {
        return Err(visited.error);
      }
      var retval := visited.value;
      if nesting > 1 && retval != source && retval.MemberAccess? {
        var prefix := PrefixProperties(retval);
        if prefix.Err? {
          return Err(prefix.error);
        }
        AddIncludedProperty(source, info, Reverse(prefix.value));
      } else {
        AddIncludedProperty(retval, info, []);
      }
      nesting := nesting - 1;
      r := Ok(retval);
    }

    /** The prefix loop of a nested Include, outermost property first (the caller reverses it). */
    method PrefixProperties(retval: GExpr) returns (r: Result<Path, Error>)
      ensures r == PrefixFrom(Cfg(), currentParent, retval)
    {
      var props: Path := [];
      var current := retval;
      PrependEmpty(PrefixFrom(Cfg(), currentParent, retval));
      while current.MemberAccess?
        invariant PrefixFrom(Cfg(), currentParent, retval) == Prepend(props, PrefixFrom(Cfg(), currentParent, current))
        decreases current
      {
        if Stops(Cfg(), currentParent, current) {
          break;
        }
        if !current.prop.isProperty {
          return Err(FieldInPrefix);
        }
        PrependStep(props, current.prop, PrefixFrom(Cfg(), currentParent, current.target));
        props := props + [current.prop];
        if current.target == source {
          return Ok(props);
        }
        current := current.target;
      }
      assert props + [] == props;
      r := Ok(props);
    }

    method AddIncludedProperty(root: GExpr, info: RelatedObject, prefix: Path)
      modifies this
      ensures Snapshot() == old(Snapshot()).(included := old(included) + IncludedRecords(root, info, prefix))
    {
      var i := 0;
      while i < |info.includedPath| + |prefix|
        invariant 0 <= i <= |info.includedPath| + |prefix|
        invariant included == old(included) + RecordsBelow(root, info, prefix, i)
        invariant Snapshot() == old(Snapshot()).(included := included)
      {
        RecordsBelowStep(root, info, prefix, i);
        included := included + {Record(root, info, prefix, i)};
        i := i + 1;
      }
    }

    method VisitMemberAccess(m: GExpr) returns (r: Result<GExpr, Error>)
      requires m.MemberAccess?
      modifies this
      ensures AgreesState(MemberAccessStep(Cfg(), old(Snapshot()), m), r, m, Snapshot())
    {
      var expression: GExpr;
      var projection := false;
      if model.isDataAccessObject(m.prop.memberType) {
        if !forProjection {
          return Ok(m);
        }
        projection := true;
        expression := m;
      } else {
        var ty := TypeOf(m.target);
        if !model.hasDescriptor(ty) {
          return Ok(m);
        }
        if !model.hasProperty(ty, m.prop.name) {
          return Err(MissingPropertyDescriptor);
        }
        if model.isPrimaryKey(ty, m.prop.name) {
          return Ok(m);
        }
        expression := m.target;
      }
      r := RegisterAccess(m, expression, projection);
    }

    /** The three loops over the chain of property accesses starting at `expression`. */
    method RegisterAccess(m: GExpr, expression: GExpr, projection: bool) returns (r: Result<GExpr, Error>)
      requires m.MemberAccess?
      modifies this
      ensures AgreesState(Register(Cfg(), old(Snapshot()), m, expression, projection), r, m, Snapshot())
    {
      var visited, root := CollectChain(expression, m.target);
      var skip, root' := FindIncludedPathStart(visited, root);
      r := RegisterChain(m, expression, projection, visited, skip, root');
    }

    /** The chain of property accesses from `expression` inwards, outermost first, and the expression below it. */
    method CollectChain(expression: GExpr, target: GExpr) returns (visited: seq<GExpr>, root: GExpr)
      ensures visited == Chain(expression) && AllAccesses(visited)
      ensures root == ChainRoot(target, visited)
    {
      visited := [];
      root := target;
      var current := expression;
      while current.MemberAccess? && current.prop.isProperty
        invariant Chain(expression) == visited + Chain(current)
        invariant AllAccesses(visited) && root == ChainRoot(target, visited)
        invariant visited != [] ==> current == root
        decreases current
      {
        assert Chain(current) == [current] + Chain(current.target);
        assert Chain(expression) == (visited + [current]) + Chain(current.target);
        visited := visited + [current];
        assert visited[|visited| - 1] == current;
        root := current.target;
        current := root;
      }
    }

    /**
      The first access of the chain declared outside data-access objects or equal
      to the current parent becomes the root, and the included path skips the
      properties from the innermost one up to it.
    */
    method FindIncludedPathStart(visited: seq<GExpr>, root: GExpr) returns (skip: int, root': GExpr)
      requires AllAccesses(visited)
      ensures skip == SkipOf(Cfg(), currentParent, visited)
      ensures root' == RootOf(Cfg(), currentParent, visited, root)
    {
      skip := 0;
      root' := root;
      var i := 0;
      while i < |visited| && !Stops(Cfg(), currentParent, visited[i])
        invariant 0 <= i <= |visited|
        invariant FirstStop(Cfg(), currentParent, visited, 0) == FirstStop(Cfg(), currentParent, visited, i)
      {
        i := i + 1;
      }
      if i < |visited| {
        root' := visited[i];
        skip := |visited| - i;
      }
    }

    /** The registration loop over the chain `visited`. */
    method RegisterChain(m: GExpr, expression: GExpr, projection: bool, visited: seq<GExpr>, skip: int, root: GExpr)
      returns (r: Result<GExpr, Error>)
      requires m.MemberAccess? && visited == Chain(expression) && AllAccesses(visited)
      modifies this
      ensures match RegisterFrom(Cfg(), old(Snapshot()), m, expression, projection, Reverse(visited), skip, root, 0)
              case Ok(s') => r == Ok(m) && Snapshot() == s'
              case Err(x) => r == Err(x)
    {
      var rev := Reverse(visited);
      // `visited` is the chain the source walks again from `expression` inwards
      var i := 0;
      while i < |visited|
        invariant 0 <= i <= |rev|
        invariant RegisterFrom(Cfg(), old(Snapshot()), m, expression, projection, rev, skip, root, 0)
               == RegisterFrom(Cfg(), Snapshot(), m, expression, projection, rev, skip, root, i)
      {
        ghost var before := Snapshot();
        var done;
        done, r := RegisterPath(m, expression, projection, rev, skip, root, i, visited[i]);
        RegisterFromUnfolds(Cfg(), before, m, expression, projection, rev, skip, root, i);
        if done {
          return;
        }
        i := i + 1;
      }
      r := Ok(m);
    }

    /** The object already filed under `path`, or a new one. */
    method FindOrCreate(path: Path, rev: seq<GExpr>, skip: int, root: GExpr, i: nat) returns (made: Result<RelatedObject, Error>)
      ensures made == Lookup(Snapshot(), path, rev, skip, root, i)
    {
      if path in results {
        return Ok(results[path]);
      }
      var x := i + skip - 1;
      var objectExpression: GExpr;
      if x < 0 {
        objectExpression := root;
      } else if x < |rev| {
        objectExpression := rev[x];
      } else {
        return Err(IndexOutOfRange(x));
      }
      made := Ok(RelatedObject(path, SkipN(path, skip), objectExpression, {}));
    }

    /** One pass of the registration loop, for the access `current`, the `i`-th of the chain from the outside. */
    method RegisterPath(m: GExpr, expression: GExpr, projection: bool, rev: seq<GExpr>, skip: int, root: GExpr,
                        i: nat, current: GExpr)
      returns (done: bool, r: Result<GExpr, Error>)
      requires m.MemberAccess? && AllAccesses(rev) && i < |rev| && current == rev[|rev| - 1 - i]
      modifies this
      ensures match RegisterStep(Cfg(), old(Snapshot()), m, expression, projection, rev, skip, root, i)
              case Stop(Ok(s')) => done && r == Ok(m) && Snapshot() == s'
              case Stop(Err(x)) => done && r == Err(x)
              case Next(s') => !done && Snapshot() == s'
    {
      done := true;
      r := Ok(m);
      var path := PathAt(rev, i);
      if !model.isDataAccessObject(path[|path| - 1].reflectedType) {
        rootByPath := rootByPath[path := current];
        return;
      }
      var made := FindOrCreate(path, rev, skip, root, i);
      if made.Err? {
        return true, Err(made.error);
      }
      var info := made.value;
      referenced := referenced + [info];
      var target: set<GExpr> := {};
      if projection {
        target := {current};
      } else if current == expression && m.target.MemberAccess? {
        target := {m.target};
      }
      // a new object is filed once, with its first target already added
      results := results[path := info.(targets := info.targets + target)];
      done := false;
    }
  }

  /** Gathers over the expressions in order with one new gatherer. */
  method GatherExpressions(model: TypeModel, es: seq<GExpr>, source: GExpr, forProjection: bool)
    returns (r: Result<Gathered, Error>)
    ensures r == Gather(model, es, source, forProjection)
  {
    var gatherer := new Gatherer(model, source, forProjection);
    var reduced := gatherer.VisitAll(es);
    if reduced.Err? {
      return Err(reduced.error);
    }
    r := Ok(Gathered(reduced.value, gatherer.results, gatherer.rootByPath, GroupByRoot(gatherer.included)));
  }
}
