/** Detector planning: validate the registry, expand the selection's dependencies, order them. */
module DetectorPlan {
  import opened Wrappers

  /** A definition with its direct dependencies; `needs` are ids of other definitions. */
  datatype Detector = Detector(id: string, needs: seq<string>)

  /** Plain functions may be registered too; they carry their own name and need nothing. */
  datatype Entry = Definition(detector: Detector) | Function(name: string) {
    function Item(): Detector {
      match this
      case Definition(d) => d
      case Function(name) => Detector(name, [])
    }
  }

  datatype Error =
    | EmptyOrDuplicate(id: string)
    | Unknown(id: string)
    | Cycle(path: seq<string>)

  datatype Result<+T> = Ok(value: T) | Err(error: Error)

  type Registry = map<string, Detector>

  // ----- Dependency paths -----

  ghost predicate Edge(registry: Registry, a: string, b: string) {
    a in registry && b in registry[a].needs
  }

  ghost predicate IsPath(registry: Registry, p: seq<string>) {
    p != [] && forall i | 0 <= i < |p| - 1 :: Edge(registry, p[i], p[i + 1])
  }

  ghost predicate Reaches(registry: Registry, a: string, b: string) {
    exists p :: IsPath(registry, p) && p[0] == a && p[|p| - 1] == b
  }

  ghost predicate IsCycle(registry: Registry, p: seq<string>) {
    IsPath(registry, p) && |p| >= 2 && p[0] == p[|p| - 1]
  }

  lemma ReachesSelf(registry: Registry, a: string)
    ensures Reaches(registry, a, a)
  {
    assert IsPath(registry, [a]);
  }

  lemma EdgeThenReaches(registry: Registry, a: string, b: string, c: string)
    requires Edge(registry, a, b) && Reaches(registry, b, c)
    ensures Reaches(registry, a, c)
  {
    var p :| IsPath(registry, p) && p[0] == b && p[|p| - 1] == c;
    var q := [a] + p;
    forall i | 0 <= i < |q| - 1 ensures Edge(registry, q[i], q[i + 1]) {
      if i > 0 { assert q[i] == p[i - 1] && q[i + 1] == p[i]; }
    }
    assert IsPath(registry, q);
  }

  // ----- Dependency order -----

  function Ids(order: seq<Detector>): set<string> {
    set d <- order :: d.id
  }

  /** Each id once, each definition from the registry, each after everything it needs. */
  ghost predicate Ordered(registry: Registry, order: seq<Detector>) {
    && (forall i, j | 0 <= i < j < |order| :: order[i].id != order[j].id)
    && (forall d <- order :: d.id in registry && registry[d.id] == d)
    && (forall i | 0 <= i < |order| :: NeedsMet(order[..i], order[i]))
  }

  ghost predicate NeedsMet(before: seq<Detector>, d: Detector) {
    forall need <- d.needs :: need in Ids(before)
  }

  lemma OrderedExtends(registry: Registry, order: seq<Detector>, d: Detector)
    requires Ordered(registry, order) && d.id in registry && registry[d.id] == d
    requires d.id !in Ids(order) && NeedsMet(order, d)
    ensures Ordered(registry, order + [d]) && Ids(order + [d]) == Ids(order) + {d.id}
  {
    var longer := order + [d];
    forall i | 0 <= i < |longer| ensures NeedsMet(longer[..i], longer[i]) {
      assert longer[..i] == order[..i];
      if i == |order| { assert order[..i] == order; }
    }
  }

  /** What an ordered list needs is in the list. */
  lemma {:induction false} OrderedIsClosed(registry: Registry, order: seq<Detector>, p: seq<string>)
    requires Ordered(registry, order) && IsPath(registry, p) && p[0] in Ids(order)
    ensures forall x <- p :: x in Ids(order)
    decreases |p|
  {
    if |p| <= 1 {
    } else {
      var i :| 0 <= i < |order| && order[i].id == p[0];
      assert Edge(registry, p[0], p[1]);
      assert order[i] in order && NeedsMet(order[..i], order[i]);
      assert p[1] in Ids(order[..i]);
      forall j | 0 <= j < |p[1..]| - 1 ensures Edge(registry, p[1..][j], p[1..][j + 1]) {
        assert Edge(registry, p[j + 1], p[j + 2]);
      }
      OrderedIsClosed(registry, order, p[1..]);
    }
  }

  /** Along a dependency path the position in the order strictly falls. */
  lemma {:induction false} PathDescends(registry: Registry, order: seq<Detector>, p: seq<string>)
    returns (first: nat, last: nat)
    requires Ordered(registry, order) && IsPath(registry, p) && p[0] in Ids(order)
    ensures first < |order| && order[first].id == p[0]
    ensures last < |order| && order[last].id == p[|p| - 1]
    ensures last <= first && (|p| > 1 ==> last < first)
    decreases |p|
  {
    first :| 0 <= first < |order| && order[first].id == p[0];
    last := first;
    if |p| == 1 {
    } else {
      assert Edge(registry, p[0], p[1]);
      assert order[first] in order && NeedsMet(order[..first], order[first]);
      assert p[1] in Ids(order[..first]);
      var j :| 0 <= j < first && order[j].id == p[1];
      forall k | 0 <= k < |p[1..]| - 1 ensures Edge(registry, p[1..][k], p[1..][k + 1]) {
        assert Edge(registry, p[k + 1], p[k + 2]);
      }
      var f, l := PathDescends(registry, order, p[1..]);
      last := l;
      assert f == j;
    }
  }

  lemma OrderedHasNoCycle(registry: Registry, order: seq<Detector>, p: seq<string>)
    requires Ordered(registry, order) && IsPath(registry, p) && p[0] in Ids(order)
    ensures !IsCycle(registry, p)
  {
    var first, last := PathDescends(registry, order, p);
  }

  /** Everything `order` has beyond `before` is needed, directly or not, by `name`. */
  ghost predicate AddedBelow(registry: Registry, before: seq<Detector>, order: seq<Detector>, name: string) {
    before <= order && forall k | |before| <= k < |order| :: Reaches(registry, name, order[k].id)
  }

  lemma AddedBelowThen(registry: Registry, a: seq<Detector>, b: seq<Detector>, c: seq<Detector>, name: string,
                       need: string)
    requires AddedBelow(registry, a, b, name) && AddedBelow(registry, b, c, need) && Edge(registry, name, need)
    ensures AddedBelow(registry, a, c, name)
  {
    forall k | |a| <= k < |c| ensures Reaches(registry, name, c[k].id) {
      if k < |b| { assert c[k] == b[k]; } else { EdgeThenReaches(registry, name, need, c[k].id); }
    }
  }

  lemma AddedItself(registry: Registry, a: seq<Detector>, b: seq<Detector>, name: string)
    requires AddedBelow(registry, a, b, name) && name in registry && registry[name].id == name
    ensures AddedBelow(registry, a, b + [registry[name]], name)
  {
    ReachesSelf(registry, name);
  }

  /** The search state: `order` is finished, `visiting` is the path being explored. */
  ghost predicate Coherent(registry: Registry, visiting: seq<string>, done: set<string>, order: seq<Detector>) {
    && (forall id <- registry :: registry[id].id == id)
    && Ordered(registry, order) && done == Ids(order)
    && (forall v <- visiting :: v in registry && v !in done)
    && (forall i, j | 0 <= i < j < |visiting| :: visiting[i] != visiting[j])
  }

  /** The ids not on the path being explored: what bounds the recursion. */
  function Left(registry: Registry, visiting: seq<string>): set<string> {
    registry.Keys - set v <- visiting
  }

  lemma Entered(registry: Registry, visiting: seq<string>, done: set<string>, order: seq<Detector>, name: string)
    requires Coherent(registry, visiting, done, order)
    requires name in registry && name !in visiting && name !in done
    ensures Coherent(registry, visiting + [name], done, order)
    ensures Left(registry, visiting + [name]) < Left(registry, visiting)
  {
    assert name in visiting + [name] && forall v <- visiting :: v in visiting + [name];
    assert name in Left(registry, visiting);
  }

  lemma Finished(registry: Registry, visiting: seq<string>, done: set<string>, order: seq<Detector>, name: string)
    requires Coherent(registry, visiting + [name], done, order)
    requires name in registry && NeedsMet(order, registry[name])
    ensures Coherent(registry, visiting, done + {name}, order + [registry[name]])
  {
    var longer := visiting + [name];
    assert longer[|visiting|] == name && name in longer;
    OrderedExtends(registry, order, registry[name]);
    forall i | 0 <= i < |visiting| ensures visiting[i] in registry && visiting[i] !in done + {name} {
      assert longer[i] == visiting[i] && longer[i] in longer && longer[i] != longer[|visiting|];
    }
    forall i, j | 0 <= i < j < |visiting| ensures visiting[i] != visiting[j] {
      assert longer[i] != longer[j];
    }
  }

  /** The items that `names` stand for. */
  ghost function ItemsOf(registry: Registry, names: seq<string>): seq<Detector> {
    seq(|names|, i requires 0 <= i < |names| => if names[i] in registry then registry[names[i]] else Detector("", []))
  }

  /** If the items come in dependency order to begin with, the order so far is a prefix of them. */
  ghost predicate Follows(items: seq<Detector>, order: seq<Detector>, i: nat)
    requires i <= |items|
  {
    DistinctIds(items) && InOrder(items) ==> order == items[..i]
  }

  lemma FollowsNext(items: seq<Detector>, before: seq<Detector>, order: seq<Detector>, i: nat)
    requires i < |items| && Follows(items, before, i)
    requires items[i].id !in Ids(before) && items[i].id != "" && NeedsMet(before, items[i]) ==>
      order == before + [items[i]]
    ensures Follows(items, order, i + 1)
  {
    if DistinctIds(items) && InOrder(items) {
      assert items[i].id !in Ids(items[..i]);
      assert items[..i + 1] == items[..i] + [items[i]];
    }
  }

  ghost predicate ReachedFrom(registry: Registry, names: seq<string>, id: string) {
    exists s :: s in names && Reaches(registry, s, id)
  }

  /** Everything in `order` is needed, directly or not, by one of `names`. */
  ghost predicate DrawnFrom(registry: Registry, names: seq<string>, order: seq<Detector>) {
    forall k | 0 <= k < |order| :: ReachedFrom(registry, names, order[k].id)
  }

  /** `order` holds exactly what the names reach. */
  ghost predicate IsClosure(registry: Registry, names: seq<string>, order: seq<Detector>) {
    forall id :: id in Ids(order) <==> ReachedFrom(registry, names, id)
  }

  lemma DrawnThen(registry: Registry, names: seq<string>, before: seq<Detector>, order: seq<Detector>, name: string)
    requires DrawnFrom(registry, names, before) && AddedBelow(registry, before, order, name) && name in names
    ensures DrawnFrom(registry, names, order)
  {
    forall k | 0 <= k < |order| ensures ReachedFrom(registry, names, order[k].id) {
      if k < |before| { assert order[k] == before[k]; }
    }
  }

  lemma ReachedIsOrdered(registry: Registry, names: seq<string>, order: seq<Detector>, id: string)
    requires Ordered(registry, order) && ReachedFrom(registry, names, id)
    requires forall k | 0 <= k < |names| :: names[k] in Ids(order)
    ensures id in Ids(order)
  {
    var s :| s in names && Reaches(registry, s, id);
    var p :| IsPath(registry, p) && p[0] == s && p[|p| - 1] == id;
    OrderedIsClosed(registry, order, p);
  }

  ghost predicate AllIn(names: seq<string>, i: nat, done: set<string>)
    requires i <= |names|
  {
    forall k | 0 <= k < i :: names[k] in done
  }

  lemma AllInNext(names: seq<string>, i: nat, before: set<string>, done: set<string>)
    requires i < |names| && AllIn(names, i, before) && before <= done && names[i] in done
    ensures AllIn(names, i + 1, done)
  {
  }

  lemma ClosureReached(registry: Registry, names: seq<string>, order: seq<Detector>, done: set<string>)
    requires Ordered(registry, order) && DrawnFrom(registry, names, order)
    requires done == Ids(order) && AllIn(names, |names|, done)
    ensures IsClosure(registry, names, order)
  {
    forall id ensures id in Ids(order) <==> ReachedFrom(registry, names, id) {
      if id in Ids(order) {
        var k :| 0 <= k < |order| && order[k].id == id;
      } else if ReachedFrom(registry, names, id) {
        ReachedIsOrdered(registry, names, order, id);
      }
    }
  }

  // ----- The depth-first planner -----

  class Planner {
    const registry: Registry
    var visiting: seq<string>
    var done: set<string>
    var order: seq<Detector>

    ghost predicate Valid()
      reads this
    {
      Coherent(registry, visiting, done, order)
    }

    constructor (registry: Registry)
      requires forall id <- registry :: registry[id].id == id
      ensures Valid() && this.registry == registry && visiting == [] && order == []
    {
      this.registry := registry;
      visiting, done, order := [], {}, [];
    }

    method Clear()
      requires Valid()
      modifies this
      ensures Valid() && visiting == old(visiting) && order == []
    {
      done, order := {}, [];
    }

    /** Visit `names` in turn. */
    method VisitAll(names: seq<string>) returns (r: Result<()>)
      requires Valid() && visiting == [] && order == []
      modifies this
      ensures r.Ok? ==> Valid() && visiting == []
      ensures r.Ok? ==> IsClosure(registry, names, order)
      ensures r.Ok? && DistinctIds(ItemsOf(registry, names)) && InOrder(ItemsOf(registry, names)) ==>
        order == ItemsOf(registry, names)
      ensures r.Err? ==> BlamedOn(registry, names, r.error)
    {
      ghost var items := ItemsOf(registry, names);
      for i := 0 to |names|
        invariant Valid() && visiting == []
        invariant AllIn(names, i, done)
        invariant DrawnFrom(registry, names, order)
        invariant Follows(items, order, i)
      {
        ghost var before, doneBefore := order, done;
        r := Visit(names[i]);
        if r.Err? {
          return;
        }
        AllInNext(names, i, doneBefore, done);
        DrawnThen(registry, names, before, order, names[i]);
        FollowsNext(items, before, order, i);
      }
      ClosureReached(registry, names, order, done);
      assert items[..|names|] == items;
      r := Ok(());
    }

    /** Append `name` after everything it needs, unless it is there already. */
    method Visit(name: string) returns (r: Result<()>)
      requires Valid() && IsPath(registry, visiting + [name])
      modifies this
      ensures r.Ok? ==> Valid() && visiting == old(visiting) && name in done && old(done) <= done
      ensures r.Ok? ==> AddedBelow(registry, old(order), order, name)
      ensures r.Ok? && name in old(done) ==> order == old(order)
      ensures r.Ok? && name !in old(done) && NeedsMet(old(order), registry[name]) ==>
        order == old(order) + [registry[name]]
      ensures r.Err? ==> Explains(registry, name, r.error)
      decreases Left(registry, visiting), 1
    {
      if name !in registry {
        ReachesSelf(registry, name);
        return Err(Unknown(name));
      }
      if name in visiting {
        PathCloses(registry, visiting, name);
        return Err(Cycle(visiting + [name]));
      }
      if name in done {
        return Ok(());
      }
      Entered(registry, visiting, done, order, name);
      visiting := visiting + [name];
      r := VisitNeeds(name);
      if r.Err? {
        return;
      }
      Finished(registry, old(visiting), done, order, name);
      AddedItself(registry, old(order), order, name);
      visiting := visiting[..|visiting| - 1];
      done := done + {name};
      order := order + [registry[name]];
    }

    method VisitNeeds(name: string) returns (r: Result<()>)
      requires Valid() && name in registry && IsPath(registry, visiting)
      requires visiting != [] && visiting[|visiting| - 1] == name
      modifies this
      ensures r.Ok? ==> Valid() && visiting == old(visiting) && NeedsMet(order, registry[name]) && old(done) <= done
      ensures r.Ok? ==> AddedBelow(registry, old(order), order, name)
      ensures r.Ok? && NeedsMet(old(order), registry[name]) ==> order == old(order)
      ensures r.Err? ==> Explains(registry, name, r.error)
      decreases Left(registry, visiting), 2
    {
      var needs := registry[name].needs;
      for i := 0 to |needs|
        invariant Valid() && visiting == old(visiting)
        invariant old(done) <= done && forall k | 0 <= k < i :: needs[k] in done
        invariant AddedBelow(registry, old(order), order, name)
        invariant NeedsMet(old(order), registry[name]) ==> order == old(order)
      {
        assert Edge(registry, name, needs[i]);
        ghost var before := order;
        PathStep(registry, visiting, needs[i]);
        r := Visit(needs[i]);
        if r.Err? {
          ExplainsUp(registry, name, needs[i], r.error);
          return;
        }
        AddedBelowThen(registry, old(order), before, order, name, needs[i]);
      }
      r := Ok(());
    }
  }

  lemma PathStep(registry: Registry, p: seq<string>, b: string)
    requires IsPath(registry, p) && Edge(registry, p[|p| - 1], b)
    ensures IsPath(registry, p + [b])
  {
    var q := p + [b];
    forall i | 0 <= i < |q| - 1 ensures Edge(registry, q[i], q[i + 1]) {
      if i < |p| - 1 { assert q[i] == p[i] && q[i + 1] == p[i + 1]; }
    }
  }

  /** Why a visit was rejected: a missing id below `name`, or a path that returns to itself. */
  ghost predicate Explains(registry: Registry, name: string, e: Error) {
    match e
    case EmptyOrDuplicate(_) => false
    case Unknown(id) => id !in registry && Reaches(registry, name, id)
    case Cycle(path) => IsPath(registry, path) && exists i | 0 <= i < |path| - 1 :: path[i] == path[|path| - 1]
  }

  /** A path that comes back to a name it has visited shows a cycle. */
  lemma PathCloses(registry: Registry, visiting: seq<string>, name: string)
    requires IsPath(registry, visiting + [name]) && name in visiting
    ensures Explains(registry, name, Cycle(visiting + [name]))
  {
    var i :| 0 <= i < |visiting| && visiting[i] == name;
    assert (visiting + [name])[i] == name;
  }

  ghost predicate BlamedOn(registry: Registry, names: seq<string>, e: Error) {
    exists s :: s in names && Explains(registry, s, e)
  }

  lemma ExplainsUp(registry: Registry, name: string, need: string, e: Error)
    requires Edge(registry, name, need) && Explains(registry, need, e)
    ensures Explains(registry, name, e)
  {
    if e.Unknown? {
      EdgeThenReaches(registry, name, need, e.id);
    }
  }

  // ----- Planning -----

  function Items(definitions: seq<Entry>): seq<Detector> {
    seq(|definitions|, i requires 0 <= i < |definitions| => definitions[i].Item())
  }

  /** A definition is registered as it is, a plain function under its name and with no needs. */
  lemma ItemsAre(definitions: seq<Entry>, i: nat)
    requires i < |definitions|
    ensures |Items(definitions)| == |definitions|
    ensures definitions[i].Definition? ==> Items(definitions)[i] == definitions[i].detector
    ensures definitions[i].Function? ==> Items(definitions)[i] == Detector(definitions[i].name, [])
  {
  }

  /** The registry of a list of items with distinct ids. */
  ghost predicate Registers(items: seq<Detector>, registry: Registry) {
    && registry.Keys == Ids(items)
    && (forall d <- items :: d.id in registry && registry[d.id] == d)
  }

  ghost predicate DistinctIds(items: seq<Detector>) {
    && (forall i | 0 <= i < |items| :: items[i].id != "")
    && (forall i, j | 0 <= i < j < |items| :: items[i].id != items[j].id)
  }

  /** What makes a registry acceptable, whatever is selected from it. */
  ghost predicate Sound(registry: Registry) {
    && (forall id <- registry, need <- registry[id].needs :: need in registry)
    && (forall p :: !IsCycle(registry, p))
  }

  ghost predicate IsSelected(registry: Registry, selected: Option<seq<string>>, id: string) {
    if selected.None? then id in registry else id in selected.value
  }

  /** The dependency closure of the selection. */
  ghost predicate Wanted(registry: Registry, selected: Option<seq<string>>, id: string) {
    exists s :: IsSelected(registry, selected, s) && Reaches(registry, s, id)
  }

  ghost predicate InOrder(items: seq<Detector>) {
    forall i | 0 <= i < |items| :: NeedsMet(items[..i], items[i])
  }

  /** On a path that leaves the registry there is a definition that needs an unknown id. */
  lemma {:induction false} UnknownNeed(registry: Registry, p: seq<string>)
    requires IsPath(registry, p) && p[0] in registry && p[|p| - 1] !in registry
    ensures !Sound(registry)
    decreases |p|
  {
    assert Edge(registry, p[0], p[1]);
    if p[1] !in registry {
    } else {
      forall j | 0 <= j < |p[1..]| - 1 ensures Edge(registry, p[1..][j], p[1..][j + 1]) {
        assert Edge(registry, p[j + 1], p[j + 2]);
      }
      UnknownNeed(registry, p[1..]);
    }
  }

  lemma RejectionIsRight(registry: Registry, name: string, e: Error)
    requires Explains(registry, name, e) && name in registry
    ensures !Sound(registry)
  {
    match e
    case EmptyOrDuplicate(_) =>
    case Unknown(id) =>
      var p :| IsPath(registry, p) && p[0] == name && p[|p| - 1] == id;
      UnknownNeed(registry, p);
    case Cycle(path) =>
      var i :| 0 <= i < |path| - 1 && path[i] == path[|path| - 1];
      CycleInPath(registry, path, i);
  }

  lemma FullOrderIsSound(registry: Registry, order: seq<Detector>)
    requires Ordered(registry, order) && Ids(order) == registry.Keys
    ensures Sound(registry)
  {
    forall id <- registry, need <- registry[id].needs ensures need in registry {
      var i :| 0 <= i < |order| && order[i].id == id;
      assert order[i] in order && NeedsMet(order[..i], order[i]);
      assert need in Ids(order[..i]);
    }
    forall p | IsCycle(registry, p) ensures false {
      assert Edge(registry, p[0], p[1]);
      OrderedHasNoCycle(registry, order, p);
    }
  }

  /** The registry holds the first `i` items, all with ids of their own. */
  ghost predicate RegistersFirst(items: seq<Detector>, i: nat, registry: Registry)
    requires i <= |items|
  {
    DistinctIds(items[..i]) && Registers(items[..i], registry)
  }

  lemma RegistersNone(items: seq<Detector>)
    ensures RegistersFirst(items, 0, map[])
  {
    assert items[..0] == [];
  }

  /** Entering one more item keeps the registry exact, unless its id is empty or taken. */
  lemma RegisterNext(items: seq<Detector>, i: nat, registry: Registry)
    requires i < |items| && RegistersFirst(items, i, registry)
    ensures items[i].id != "" && items[i].id !in registry
        ==> RegistersFirst(items, i + 1, registry[items[i].id := items[i]])
  {
    var first, item := items[..i], items[i];
    assert items[..i + 1] == first + [item];
    if item.id !in registry {
      assert forall d <- first :: d.id in Ids(first);
      assert Ids(first + [item]) == Ids(first) + {item.id};
    }
  }

  lemma RegistersAll(items: seq<Detector>, registry: Registry)
    requires RegistersFirst(items, |items|, registry)
    ensures DistinctIds(items) && Registers(items, registry)
  {
    assert items[..|items|] == items;
  }

  lemma TakenId(items: seq<Detector>, i: nat, registry: Registry)
    requires i < |items| && RegistersFirst(items, i, registry)
    requires items[i].id == "" || items[i].id in registry
    ensures !DistinctIds(items)
  {
    if items[i].id in registry {
      assert items[i].id in Ids(items[..i]);
      var j :| 0 <= j < i && items[..i][j].id == items[i].id;
      assert items[j].id == items[i].id;
    }
  }

  /** Enter the definitions, refusing an empty or repeated id. */
  method Register(definitions: seq<Entry>) returns (r: Result<Registry>)
    ensures r.Ok? <==> DistinctIds(Items(definitions))
    ensures r.Ok? ==> Registers(Items(definitions), r.value)
    ensures r.Err? ==> r.error.EmptyOrDuplicate?
  {
    ghost var items := Items(definitions);
    var registry: Registry := map[];
    RegistersNone(items);
    for i := 0 to |definitions|
      invariant RegistersFirst(items, i, registry)
    {
      var item := definitions[i].Item();
      assert items[i] == item;
      if item.id == "" || item.id in registry {
        TakenId(items, i, registry);
        return Err(EmptyOrDuplicate(item.id));
      }
      RegisterNext(items, i, registry);
      registry := registry[item.id := item];
    }
    RegistersAll(items, registry);
    r := Ok(registry);
  }

  /** Validate the definitions, then expand the dependencies of the selection once, in stable order. */
  method PlanDetectors(definitions: seq<Entry>, selected: Option<seq<string>>)
    returns (r: Result<seq<Detector>>, ghost registry: Registry)
    ensures DistinctIds(Items(definitions)) ==> Registers(Items(definitions), registry)
    ensures r.Ok? <==> DistinctIds(Items(definitions)) && Sound(registry)
                       && (selected.Some? ==> forall s <- selected.value :: s in registry)
    ensures r.Err? ==> IsRight(Items(definitions), registry, r.error)
    ensures r.Ok? ==> Ordered(registry, r.value)
    ensures r.Ok? ==> forall id :: id in Ids(r.value) <==> Wanted(registry, selected, id)
    ensures r.Ok? && selected.None? && InOrder(Items(definitions)) ==> r.value == Items(definitions)
  {
    registry := map[];
    var registered := Register(definitions);
    if registered.Err? {
      return Err(registered.error), registry;
    }
    registry := registered.value;
    ghost var items := Items(definitions);
    var names := seq(|definitions|, i requires 0 <= i < |definitions| => definitions[i].Item().id);
    NamesAreKeys(items, names, registry);
    var planner := new Planner(registered.value);

    var visited := planner.VisitAll(names);
    if visited.Err? {
      FirstPassRejects(registry, names, visited.error);
      BlameIsRight(items, registry, names, visited.error);
      return Err(visited.error), registry;
    }
    CoversAll(registry, names, planner.order);
    planner.Clear();
    visited := planner.VisitAll(if selected.None? then names else selected.value);
    if visited.Err? {
      SecondPassRejects(registry, names, selected, visited.error);
      BlameIsRight(items, registry, if selected.None? then names else selected.value, visited.error);
      return Err(visited.error), registry;
    }
    ClosureIsWanted(registry, names, selected, planner.order);
    r := Ok(planner.order);
  }

  /** The error names what is wrong: a bad id, an id nobody defines, or a path that is really cyclic. */
  ghost predicate IsRight(items: seq<Detector>, registry: Registry, e: Error) {
    match e
    case EmptyOrDuplicate(_) => !DistinctIds(items)
    case Unknown(id) => id !in registry
    case Cycle(path) => IsPath(registry, path) && exists i | 0 <= i < |path| - 1 :: IsCycle(registry, path[i..])
  }

  lemma BlameIsRight(items: seq<Detector>, registry: Registry, names: seq<string>, e: Error)
    requires BlamedOn(registry, names, e)
    ensures IsRight(items, registry, e)
  {
    var s :| s in names && Explains(registry, s, e);
    if e.Cycle? {
      var i :| 0 <= i < |e.path| - 1 && e.path[i] == e.path[|e.path| - 1];
      CycleInPath(registry, e.path, i);
    }
  }

  lemma CycleInPath(registry: Registry, path: seq<string>, i: nat)
    requires IsPath(registry, path) && i < |path| - 1 && path[i] == path[|path| - 1]
    ensures IsCycle(registry, path[i..])
  {
    var p := path[i..];
    forall j | 0 <= j < |p| - 1 ensures Edge(registry, p[j], p[j + 1]) {
      assert Edge(registry, path[i + j], path[i + j + 1]);
    }
  }

  lemma FirstPassRejects(registry: Registry, names: seq<string>, e: Error)
    requires BlamedOn(registry, names, e) && forall id :: id in names <==> id in registry
    ensures !Sound(registry)
  {
    var s :| s in names && Explains(registry, s, e);
    RejectionIsRight(registry, s, e);
  }

  lemma NamesAreKeys(items: seq<Detector>, names: seq<string>, registry: Registry)
    requires Registers(items, registry)
    requires |names| == |items| && forall i | 0 <= i < |names| :: names[i] == items[i].id
    ensures forall id :: id in names <==> id in registry
    ensures ItemsOf(registry, names) == items
  {
    forall id | id in registry ensures id in names {
      var i :| 0 <= i < |items| && items[i].id == id;
      assert names[i] == id;
    }
    assert forall i | 0 <= i < |items| :: items[i] in items;
  }

  /** The first pass visits every id, so its order shows the whole registry to be sound. */
  lemma CoversAll(registry: Registry, names: seq<string>, order: seq<Detector>)
    requires Ordered(registry, order) && IsClosure(registry, names, order)
    requires forall id :: id in names <==> id in registry
    ensures Sound(registry)
  {
    forall id ensures id in Ids(order) <==> id in registry {
      ReachesSelf(registry, id);
      if id in registry { assert ReachedFrom(registry, names, id); }
      if id in Ids(order) { var k :| 0 <= k < |order| && order[k].id == id; assert order[k] in order; }
    }
    FullOrderIsSound(registry, order);
  }

  /** Once the whole registry is known to be sound, only an unknown selection can be refused. */
  lemma SecondPassRejects(registry: Registry, names: seq<string>, selected: Option<seq<string>>, e: Error)
    requires Sound(registry) && forall id :: id in names <==> id in registry
    requires BlamedOn(registry, if selected.None? then names else selected.value, e)
    ensures selected.Some? && exists s <- selected.value :: s !in registry
  {
    var s :| s in (if selected.None? then names else selected.value) && Explains(registry, s, e);
    if s in registry {
      RejectionIsRight(registry, s, e);
    }
  }

  lemma ClosureIsWanted(registry: Registry, names: seq<string>, selected: Option<seq<string>>, order: seq<Detector>)
    requires forall id :: id in names <==> id in registry
    requires IsClosure(registry, if selected.None? then names else selected.value, order)
    requires Ordered(registry, order)
    ensures forall id :: id in Ids(order) <==> Wanted(registry, selected, id)
    ensures selected.Some? ==> forall s <- selected.value :: s in registry
  {
    var chosen := if selected.None? then names else selected.value;
    forall id ensures id in Ids(order) <==> Wanted(registry, selected, id) {
      if Wanted(registry, selected, id) {
        var s :| IsSelected(registry, selected, s) && Reaches(registry, s, id);
        assert s in chosen;
      }
    }
    forall s <- chosen ensures s in registry {
      ReachesSelf(registry, s);
      assert s in Ids(order);
    }
  }
}
