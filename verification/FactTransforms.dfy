/** Demand-driven fact evaluation: what a request for a fact means, independent of any memo table.

    A transform's computation is an interaction tree.  It asks for facts one at a time, each
    answer selecting the rest of the computation, and ends with its outputs or a failure.  An
    answer without a continuation is an answer on which the computation raises. */
module FactTransforms {

  type NodeId = string

  /** A fact's value; `Null` is also what a missing fact reads as. */
  datatype Value = Null | Datum(text: string)

  datatype Key = Key(node: NodeId, name: string)

  datatype Compute =
    | Ask(key: Key, next: imap<Value, Compute>)
    | Done(outputs: map<string, Value>)
    | Fail

  datatype Transform = Transform(
    produces: seq<string>,
    applies: NodeId -> bool,
    compute: NodeId -> Compute)

  /** One application of a transform to one node. */
  datatype Invocation = Invocation(node: NodeId, transform: nat)

  datatype Error =
    | ConflictingProducer(key: Key)
    | CyclicDependency(key: Key)
    | UndeclaredOutput(key: Key)
    | ComputeRaised
    | ForeignNode(node: NodeId)
    | ConflictingWrite(key: Key)

  datatype Result<+T> = Ok(value: T) | Err(error: Error)

  /** What evaluation yields: a value with the invocations it ran, or the first error. */
  datatype Outcome<+T> = Yields(value: T, used: set<Invocation>) | Raises(error: Error) {
    function ToResult(): Result<T> {
      match this
      case Yields(v, _) => Ok(v)
      case Raises(e) => Err(e)
    }
  }

  /** The facts present at construction, the transforms, and which transform owns which fact. */
  datatype Graph = Graph(base: map<Key, Value>, transforms: seq<Transform>, owners: map<Key, nat>) {

    /** An owned fact has no base value, and a transform owns all its outputs at a node or none. */
    ghost predicate Valid() {
      && base.Keys !! owners.Keys
      && (forall k <- owners :: k.name in Produces(Owner(k)))
      && (forall inv <- Invocations() :: OwnsAll(inv))
    }

    ghost predicate OwnsAll(inv: Invocation) {
      forall name <- Produces(inv) :: Key(inv.node, name) in owners && Owner(Key(inv.node, name)) == inv
    }

    function Owner(key: Key): Invocation
      requires key in owners
    {
      Invocation(key.node, owners[key])
    }

    function Invocations(): set<Invocation> {
      set k <- owners :: Owner(k)
    }

    function Produces(inv: Invocation): seq<string> {
      if inv.transform < |transforms| then transforms[inv.transform].produces else []
    }

    function Computation(inv: Invocation): Compute {
      if inv.transform < |transforms| then transforms[inv.transform].compute(inv.node) else Fail
    }
  }

  predicate Declared(g: Graph, inv: Invocation, outputs: map<string, Value>) {
    forall name <- outputs :: name in g.Produces(inv)
  }

  function Pick(outputs: map<string, Value>, name: string): Value {
    if name in outputs then outputs[name] else Null
  }

  // ----- Evaluation without memory: every request recomputes; `active` only detects re-entry -----

  function Eval(g: Graph, key: Key, active: set<Invocation>): Outcome<Value>
    decreases g.Invocations() - active, 0
  {
    if key in g.base then Yields(g.base[key], {})
    else if key !in g.owners then Yields(Null, {})
    else
      var inv := g.Owner(key);
      assert inv in g.Invocations();
      if inv in active then Raises(CyclicDependency(key))
      else
        match Run(g, g.Computation(inv), active + {inv})
        case Raises(e) => Raises(e)
        case Yields(outputs, used) =>
          if Declared(g, inv, outputs) then Yields(Pick(outputs, key.name), used + {inv})
          else Raises(UndeclaredOutput(key))
  }

  /** Carry a computation through to its outputs, evaluating each fact it asks for. */
  function Run(g: Graph, t: Compute, active: set<Invocation>): Outcome<map<string, Value>>
    decreases g.Invocations() - active, 1, t
  {
    match t
    case Done(outputs) => Yields(outputs, {})
    case Fail => Raises(ComputeRaised)
    case Ask(key, next) =>
      match Eval(g, key, active)
      case Raises(e) => Raises(e)
      case Yields(v, used) =>
        if v !in next then Raises(ComputeRaised)
        else
          match Run(g, next[v], active)
          case Raises(e) => Raises(e)
          case Yields(outputs, more) => Yields(outputs, used + more)
  }

  // ----- Plain recursion: no active set at all, so a cyclic request recurses for ever -----

  /** Plain recursive evaluation cut off after `depth` nested computations. */
  datatype Plain<+T> = Returns(result: Result<T>) | TooDeep

  function PlainEval(g: Graph, key: Key, depth: nat): Plain<Value>
    decreases depth, 0
  {
    if key in g.base then Returns(Ok(g.base[key]))
    else if key !in g.owners then Returns(Ok(Null))
    else if depth == 0 then TooDeep
    else
      var inv := g.Owner(key);
      match PlainRun(g, g.Computation(inv), depth - 1)
      case TooDeep => TooDeep
      case Returns(Err(e)) => Returns(Err(e))
      case Returns(Ok(outputs)) =>
        Returns(if Declared(g, inv, outputs) then Ok(Pick(outputs, key.name)) else Err(UndeclaredOutput(key)))
  }

  function PlainRun(g: Graph, t: Compute, depth: nat): Plain<map<string, Value>>
    decreases depth, 1, t
  {
    match t
    case Done(outputs) => Returns(Ok(outputs))
    case Fail => Returns(Err(ComputeRaised))
    case Ask(key, next) =>
      match PlainEval(g, key, depth)
      case TooDeep => TooDeep
      case Returns(Err(e)) => Returns(Err(e))
      case Returns(Ok(v)) => if v !in next then Returns(Err(ComputeRaised)) else PlainRun(g, next[v], depth)
  }

  /** A plain evaluation that finishes is not changed by allowing more depth. */
  lemma {:induction false} PlainDeeper(g: Graph, t: Compute, depth: nat, more: nat)
    requires depth <= more
    ensures PlainRun(g, t, depth).Returns? ==> PlainRun(g, t, more) == PlainRun(g, t, depth)
    decreases depth, 1, t
  {
    if !t.Ask? {
    } else {
      PlainEvalDeeper(g, t.key, depth, more);
      match PlainEval(g, t.key, depth)
      case Returns(Ok(v)) => if v in t.next { PlainDeeper(g, t.next[v], depth, more); }
      case _ =>
    }
  }

  lemma {:induction false} PlainEvalDeeper(g: Graph, key: Key, depth: nat, more: nat)
    requires depth <= more
    ensures PlainEval(g, key, depth).Returns? ==> PlainEval(g, key, more) == PlainEval(g, key, depth)
    decreases depth, 0
  {
    if key in g.base || key !in g.owners || depth == 0 {
    } else {
      PlainDeeper(g, g.Computation(g.Owner(key)), depth - 1, more - 1);
    }
  }

  /** The computations in `active` are still unfinished at this depth: each is what is being waited for. */
  ghost predicate Unfinished(g: Graph, active: set<Invocation>, depth: nat) {
    forall inv <- active :: PlainRun(g, g.Computation(inv), depth).TooDeep?
  }

  lemma UnfinishedShallower(g: Graph, active: set<Invocation>, depth: nat, less: nat)
    requires less <= depth
    ensures Unfinished(g, active, depth) ==> Unfinished(g, active, less)
  {
    forall inv <- active | Unfinished(g, active, depth) ensures PlainRun(g, g.Computation(inv), less).TooDeep? {
      if PlainRun(g, g.Computation(inv), less).Returns? {
        PlainDeeper(g, g.Computation(inv), less, depth);
      }
    }
  }

  /** If plain recursion finishes, the cycle check never fires on the way and the answers agree. */
  lemma {:induction false} PlainAgrees(g: Graph, key: Key, active: set<Invocation>, depth: nat)
    requires depth > 0 ==> Unfinished(g, active, depth - 1)
    ensures PlainEval(g, key, depth).Returns? ==> Eval(g, key, active).ToResult() == PlainEval(g, key, depth).result
    decreases depth, 0
  {
    if key in g.base || key !in g.owners || !PlainEval(g, key, depth).Returns? {
    } else {
      var inv := g.Owner(key);
      var t := g.Computation(inv);
      if depth > 1 {
        UnfinishedShallower(g, active, depth - 1, depth - 2);
        if PlainRun(g, t, depth - 2).Returns? {
          PlainDeeper(g, t, depth - 2, depth - 1);
          PlainAgrees(g, key, active, depth - 1);
          return;
        }
      }
      PlainAgreesRun(g, t, active + {inv}, depth - 1);
    }
  }

  lemma {:induction false} PlainAgreesRun(g: Graph, t: Compute, active: set<Invocation>, depth: nat)
    requires depth > 0 ==> Unfinished(g, active, depth - 1)
    ensures PlainRun(g, t, depth).Returns? ==> Run(g, t, active).ToResult() == PlainRun(g, t, depth).result
    decreases depth, 1, t
  {
    if t.Ask? && PlainRun(g, t, depth).Returns? {
      PlainAgrees(g, t.key, active, depth);
      match Eval(g, t.key, active)
      case Yields(v, _) => if v in t.next { PlainAgreesRun(g, t.next[v], active, depth); }
      case Raises(_) =>
    }
  }

  /** Conversely an evaluation that meets no cycle is one that plain recursion finishes. */
  lemma {:induction false} EvalFinishes(g: Graph, key: Key, active: set<Invocation>) returns (depth: nat)
    ensures !IsCycle(Eval(g, key, active).ToResult()) ==>
      PlainEval(g, key, depth) == Returns(Eval(g, key, active).ToResult())
    decreases g.Invocations() - active, 0
  {
    depth := 0;
    if key !in g.base && key in g.owners && g.Owner(key) !in active {
      var inv := g.Owner(key);
      assert inv in g.Invocations();
      depth := RunFinishes(g, g.Computation(inv), active + {inv});
      depth := depth + 1;
    }
  }

  lemma {:induction false} RunFinishes(g: Graph, t: Compute, active: set<Invocation>) returns (depth: nat)
    ensures !IsCycle(Run(g, t, active).ToResult()) ==> PlainRun(g, t, depth) == Returns(Run(g, t, active).ToResult())
    decreases g.Invocations() - active, 1, t
  {
    depth := 0;
    if t.Ask? {
      var d := EvalFinishes(g, t.key, active);
      depth := d;
      match Eval(g, t.key, active)
      case Raises(_) =>
      case Yields(v, _) =>
        if v in t.next {
          var e := RunFinishes(g, t.next[v], active);
          depth := if d < e then e else d;
          PlainEvalDeeper(g, t.key, d, depth);
          PlainDeeper(g, t.next[v], e, depth);
        }
    }
  }

  predicate IsCycle<T>(r: Result<T>) {
    r.Err? && r.error.CyclicDependency?
  }

  lemma {:induction false} PlainNeverCyclic(g: Graph, key: Key, depth: nat)
    ensures PlainEval(g, key, depth).Returns? ==> !IsCycle(PlainEval(g, key, depth).result)
    decreases depth, 0
  {
    if key !in g.base && key in g.owners && depth > 0 {
      PlainRunNeverCyclic(g, g.Computation(g.Owner(key)), depth - 1);
    }
  }

  lemma {:induction false} PlainRunNeverCyclic(g: Graph, t: Compute, depth: nat)
    ensures PlainRun(g, t, depth).Returns? ==> !IsCycle(PlainRun(g, t, depth).result)
    decreases depth, 1, t
  {
    if t.Ask? {
      PlainNeverCyclic(g, t.key, depth);
      match PlainEval(g, t.key, depth)
      case Returns(Ok(v)) => if v in t.next { PlainRunNeverCyclic(g, t.next[v], depth); }
      case _ =>
    }
  }

  /** The cycle check is exact: a request is reported cyclic if and only if plain recursive
      evaluation of it would never come to an end. */
  lemma CycleIffEndless(g: Graph, key: Key)
    ensures IsCycle(Eval(g, key, {}).ToResult()) <==> (forall depth: nat :: PlainEval(g, key, depth).TooDeep?)
  {
    if !IsCycle(Eval(g, key, {}).ToResult()) {
      var depth := EvalFinishes(g, key, {});
      assert PlainEval(g, key, depth).Returns?;
    } else {
      forall depth: nat ensures PlainEval(g, key, depth).TooDeep? {
        if PlainEval(g, key, depth).Returns? {
          PlainAgrees(g, key, {}, depth);
          PlainNeverCyclic(g, key, depth);
        }
      }
    }
  }

  /** An answer that is not a cycle is the answer of plain recursive evaluation, and of no other depth. */
  lemma AnswerIsPlain(g: Graph, key: Key, r: Result<Value>)
    ensures !IsCycle(r) ==>
      (Eval(g, key, {}).ToResult() == r <==> exists depth: nat :: PlainEval(g, key, depth) == Returns(r))
  {
    if Eval(g, key, {}).ToResult() == r && !IsCycle(r) {
      var depth := EvalFinishes(g, key, {});
      assert PlainEval(g, key, depth) == Returns(r);
    }
    if depth: nat :| PlainEval(g, key, depth) == Returns(r) {
      PlainAgrees(g, key, {}, depth);
    }
  }
}
