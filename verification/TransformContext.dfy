/** The memoising transform context: `get` with its memo tables, and `materialize` as a transaction. */
module TransformContexts {
  import opened Wrappers
  import opened FactTransforms

  // ----- What the memo tables are allowed to hold -----

  function RunOf(g: Graph, inv: Invocation, active: set<Invocation>): Outcome<map<string, Value>> {
    Run(g, g.Computation(inv), active + {inv})
  }

  /** The outputs of an invocation evaluated on its own. */
  function Outputs(g: Graph, inv: Invocation): map<string, Value> {
    match RunOf(g, inv, {})
    case Yields(outputs, _) => outputs
    case Raises(_) => map[]
  }

  /** `memo` may be remembered: whatever else is active, running one of its members again yields
      the same declared outputs and needs nothing outside `memo`. */
  ghost predicate Settled(g: Graph, memo: set<Invocation>) {
    forall inv <- memo ::
      && Declared(g, inv, Outputs(g, inv))
      && forall active: set<Invocation> | active !! memo :: Agrees(g, memo, inv, active)
  }

  ghost predicate Agrees(g: Graph, memo: set<Invocation>, inv: Invocation, active: set<Invocation>) {
    var r := RunOf(g, inv, active);
    r.Yields? && r.value == Outputs(g, inv) && r.used <= memo
  }

  /** The value the memo answers a request with, if it needs no computation. */
  function Recall(g: Graph, memo: set<Invocation>, key: Key): Option<Value> {
    if key in g.base then Some(g.base[key])
    else if key !in g.owners then Some(Null)
    else if g.Owner(key) in memo then Some(Pick(Outputs(g, g.Owner(key)), key.name))
    else None
  }

  /** Every question of `t` is answered by the memo, and it then ends with `outputs`. */
  ghost predicate Replays(g: Graph, memo: set<Invocation>, t: Compute, outputs: map<string, Value>)
    decreases t
  {
    match t
    case Done(o) => o == outputs
    case Fail => false
    case Ask(key, next) =>
      var v := Recall(g, memo, key);
      v.Some? && v.value in next && Replays(g, memo, next[v.value], outputs)
  }

  lemma {:induction false} ReplaysMore(g: Graph, memo: set<Invocation>, more: set<Invocation>, t: Compute,
                                       outputs: map<string, Value>)
    requires memo <= more && Replays(g, memo, t, outputs)
    ensures Replays(g, more, t, outputs)
    decreases t
  {
    if !t.Ask? {
    } else {
      ReplaysMore(g, memo, more, t.next[Recall(g, memo, t.key).value], outputs);
    }
  }

  lemma RecallIsEval(g: Graph, memo: set<Invocation>, key: Key, active: set<Invocation>)
    requires Settled(g, memo) && active !! memo && Recall(g, memo, key).Some?
    ensures Eval(g, key, active).Yields?
    ensures Eval(g, key, active).value == Recall(g, memo, key).value
    ensures Eval(g, key, active).used <= memo
  {
    if key !in g.base && key in g.owners {
      assert Agrees(g, memo, g.Owner(key), active);
    }
  }

  lemma {:induction false} ReplayIsRun(g: Graph, memo: set<Invocation>, t: Compute, outputs: map<string, Value>,
                                       active: set<Invocation>)
    requires Settled(g, memo) && active !! memo && Replays(g, memo, t, outputs)
    ensures Run(g, t, active).Yields?
    ensures Run(g, t, active).value == outputs
    ensures Run(g, t, active).used <= memo
    decreases t
  {
    if !t.Ask? {
    } else {
      RecallIsEval(g, memo, t.key, active);
      ReplayIsRun(g, memo, t.next[Recall(g, memo, t.key).value], outputs, active);
    }
  }

  /** A computation answered entirely from the memo may be remembered too. */
  lemma SettledGrows(g: Graph, memo: set<Invocation>, inv: Invocation, outputs: map<string, Value>)
    requires Settled(g, memo) && inv !in memo
    requires Replays(g, memo, g.Computation(inv), outputs) && Declared(g, inv, outputs)
    ensures Settled(g, memo + {inv}) && Outputs(g, inv) == outputs
  {
    ReplayIsRun(g, memo, g.Computation(inv), outputs, {inv});
    assert {} + {inv} == {inv};
    forall i <- memo + {inv}, active: set<Invocation> | active !! memo + {inv}
      ensures Agrees(g, memo + {inv}, i, active)
    {
      if i == inv {
        ReplayIsRun(g, memo, g.Computation(inv), outputs, active + {inv});
      } else {
        assert Agrees(g, memo, i, active);
      }
    }
  }

  // ----- Facts a set of finished invocations stands for -----

  function OutputFacts(g: Graph, invs: set<Invocation>): map<Key, Value> {
    map k | k in g.owners && g.Owner(k) in invs && k.name in Outputs(g, g.Owner(k)) :: Outputs(g, g.Owner(k))[k.name]
  }

  /** The base facts together with the outputs of `invs`. */
  function FactsOf(g: Graph, invs: set<Invocation>): map<Key, Value> {
    g.base + OutputFacts(g, invs)
  }

  /** The memo tables tell the truth: what is completed is pending, what is done is in the facts. */
  ghost predicate Consistent(g: Graph, completed: set<Invocation>, done: set<Invocation>,
                             facts: map<Key, Value>, pending: map<Key, Value>) {
    && g.Valid()
    && completed !! done
    && completed + done <= g.Invocations()
    && Settled(g, completed + done)
    && facts == FactsOf(g, done)
    && pending == OutputFacts(g, completed)
  }

  function Keyed(inv: Invocation, outputs: map<string, Value>): map<Key, Value> {
    map k: Key | k.node == inv.node && k in (set name <- outputs :: Key(inv.node, name)) :: outputs[k.name]
  }

  lemma KeyedIsOwned(g: Graph, inv: Invocation, key: Key)
    requires g.Valid() && inv in g.Invocations() && Declared(g, inv, Outputs(g, inv))
    ensures key in Keyed(inv, Outputs(g, inv)) <==>
      key in g.owners && g.Owner(key) == inv && key.name in Outputs(g, inv)
  {
    assert g.OwnsAll(inv);
  }

  lemma RememberedFacts(g: Graph, completed: set<Invocation>, inv: Invocation)
    requires g.Valid() && inv in g.Invocations() && Declared(g, inv, Outputs(g, inv))
    ensures OutputFacts(g, completed + {inv}) == OutputFacts(g, completed) + Keyed(inv, Outputs(g, inv))
  {
    var after, before, added := OutputFacts(g, completed + {inv}), OutputFacts(g, completed),
      Keyed(inv, Outputs(g, inv));
    forall key: Key ensures key in after <==> key in before + added {
      KeyedIsOwned(g, inv, key);
    }
    forall key <- after ensures after[key] == (before + added)[key] {
      KeyedIsOwned(g, inv, key);
    }
  }

  lemma ConsistentGrows(g: Graph, completed: set<Invocation>, done: set<Invocation>,
                        facts: map<Key, Value>, pending: map<Key, Value>, inv: Invocation, outputs: map<string, Value>)
    requires Consistent(g, completed, done, facts, pending)
    requires inv !in completed + done && inv in g.Invocations()
    requires Replays(g, completed + done, g.Computation(inv), outputs) && Declared(g, inv, outputs)
    ensures Consistent(g, completed + {inv}, done, facts, pending + Keyed(inv, outputs))
    ensures Outputs(g, inv) == outputs
  {
    SettledGrows(g, completed + done, inv, outputs);
    assert completed + {inv} + done == completed + done + {inv};
    RememberedFacts(g, completed, inv);
  }

  lemma OutputFactsUnion(g: Graph, some: set<Invocation>, others: set<Invocation>)
    ensures OutputFacts(g, some) + OutputFacts(g, others) == OutputFacts(g, some + others)
  {
  }

  lemma MergeAssociates(a: map<Key, Value>, b: map<Key, Value>, c: map<Key, Value>)
    ensures a + b + c == a + (b + c)
  {
  }

  lemma CommittedFacts(g: Graph, completed: set<Invocation>, done: set<Invocation>)
    ensures FactsOf(g, done) + OutputFacts(g, completed) == FactsOf(g, done + completed)
  {
    OutputFactsUnion(g, done, completed);
    MergeAssociates(g.base, OutputFacts(g, done), OutputFacts(g, completed));
  }

  lemma ConsistentCommits(g: Graph, completed: set<Invocation>, done: set<Invocation>,
                          facts: map<Key, Value>, pending: map<Key, Value>)
    requires Consistent(g, completed, done, facts, pending)
    ensures Consistent(g, {}, done + completed, facts + pending, map[])
    ensures pending.Keys !! facts.Keys
  {
    CommittedFacts(g, completed, done);
    assert {} + (done + completed) == completed + done;
    assert OutputFacts(g, {}) == map[];
  }

  // ----- How often a computation was started -----

  ghost predicate RanOnce(before: multiset<Invocation>, after: multiset<Invocation>, ran: set<Invocation>) {
    forall i: Invocation :: after[i] == before[i] + if i in ran then 1 else 0
  }

  ghost predicate NotRun(before: multiset<Invocation>, after: multiset<Invocation>, memo: set<Invocation>) {
    forall i <- memo :: after[i] == before[i]
  }

  /** How often each computation was started on the way from one memo to a larger one: none of what was
      remembered or active, none twice, and in the end exactly the new ones if all went well. */
  ghost predicate Ran(before: multiset<Invocation>, after: multiset<Invocation>,
                      memo: set<Invocation>, more: set<Invocation>, active: set<Invocation>, ok: bool)
  {
    && NotRun(before, after, memo + active)
    && (forall i: Invocation :: after[i] <= before[i] + 1)
    && (ok ==> RanOnce(before, after, more - memo))
  }

  lemma RanThen(a: multiset<Invocation>, b: multiset<Invocation>, c: multiset<Invocation>,
                first: set<Invocation>, second: set<Invocation>, third: set<Invocation>, active: set<Invocation>,
                ok: bool)
    requires Ran(a, b, first, second, active, true) && Ran(b, c, second, third, active, ok)
    requires first <= second <= third
    ensures Ran(a, c, first, third, active, ok)
  {
  }

  /** Starting one invocation and then what it asks for. */
  lemma GuardedRan(a: multiset<Invocation>, b: multiset<Invocation>, c: multiset<Invocation>,
                   inv: Invocation, memo: set<Invocation>, more: set<Invocation>, active: set<Invocation>, ok: bool)
    requires b == a + multiset{inv} && inv !in memo && inv !in more && inv !in active
    requires Ran(b, c, memo, more, active + {inv}, ok)
    ensures Ran(a, c, memo, more + {inv}, active, ok)
  {
  }

  // ----- Requests -----

  /** A request names a node by id and by object identity. */
  datatype Request = Request(node: NodeId, identity: nat, name: string) {
    function Key(): Key { FactTransforms.Key(node, name) }
  }

  function Keys(requests: seq<Request>): set<Key> {
    set r <- requests :: r.Key()
  }

  /** What a request would answer on its own. */
  function Answer(g: Graph, nodes: map<NodeId, nat>, r: Request): Result<()> {
    if r.node !in nodes || nodes[r.node] != r.identity then Err(ForeignNode(r.node))
    else
      match Eval(g, r.Key(), {})
      case Raises(e) => Err(e)
      case Yields(_, _) => Ok(())
  }

  /** The first error of evaluating the requests in order on their own, if there is one. */
  function FirstError(g: Graph, nodes: map<NodeId, nat>, requests: seq<Request>): Result<()> {
    if requests == [] then Ok(())
    else if Answer(g, nodes, requests[0]).Err? then Answer(g, nodes, requests[0])
    else FirstError(g, nodes, requests[1..])
  }

  lemma FirstErrorNext(g: Graph, nodes: map<NodeId, nat>, requests: seq<Request>, i: nat)
    requires i < |requests|
    ensures FirstError(g, nodes, requests[i..])
         == if Answer(g, nodes, requests[i]).Err? then Answer(g, nodes, requests[i])
           else FirstError(g, nodes, requests[i + 1..])
  {
    assert requests[i..][0] == requests[i] && requests[i..][1..] == requests[i + 1..];
  }

  function UsedBy(g: Graph, key: Key): set<Invocation> {
    match Eval(g, key, {})
    case Yields(_, used) => used
    case Raises(_) => {}
  }

  /** Every invocation that evaluating the keys on their own runs. */
  function Demand(g: Graph, keys: set<Key>): set<Invocation> {
    set k <- keys, inv <- UsedBy(g, k) :: inv
  }

  class TransformContext {
    const graph: Graph
    const nodes: map<NodeId, nat>
    var facts: map<Key, Value>
    var pending: map<Key, Value>
    var active: set<Invocation>
    var completed: set<Invocation>
    var done: set<Invocation>
    /** Every invocation whose computation was started, with multiplicity. */
    ghost var started: multiset<Invocation>

    ghost function Memo(): set<Invocation>
      reads this
    {
      completed + done
    }

    ghost predicate Valid()
      reads this
    {
      && graph.Valid() && (forall k <- graph.owners :: k.node in nodes)
      && Consistent(graph, completed, done, facts, pending)
      && active !! Memo() && active <= graph.Invocations()
    }

    /** Between two materializations nothing is pending, completed or active. */
    ghost predicate Idle()
      reads this
    {
      Valid() && active == {} && completed == {} && pending == map[]
    }

    constructor (graph: Graph, nodes: map<NodeId, nat>)
      requires graph.Valid() && forall k <- graph.owners :: k.node in nodes
      ensures Idle() && this.graph == graph && this.nodes == nodes
      ensures facts == graph.base && done == {} && started == multiset{}
    {
      this.graph, this.nodes := graph, nodes;
      facts, pending := graph.base, map[];
      active, completed, done := {}, {}, {};
      started := multiset{};
    }

    /** Resolve one fact: from the facts, the pending outputs, or by running its owner. */
    method Get(key: Key) returns (r: Result<Value>)
      requires Valid()
      modifies this
      ensures Valid()
      ensures active == old(active) && done == old(done) && facts == old(facts)
      ensures r == Eval(graph, key, old(active)).ToResult()
      ensures completed >= old(completed)
      ensures r.Ok? ==> Memo() == old(Memo()) + Eval(graph, key, old(active)).used
      ensures r.Ok? ==> Recall(graph, Memo(), key) == Some(r.value)
      ensures Ran(old(started), started, old(Memo()), Memo(), old(active), r.Ok?)
      decreases graph.Invocations() - active, 0, 2
    {
      if key in facts {
        MemoAnswers(key);
        return Ok(facts[key]);
      }
      if key in pending {
        MemoAnswers(key);
        return Ok(pending[key]);
      }
      if key !in graph.owners {
        return Ok(Null);
      }
      var inv := graph.Owner(key);
      assert inv in graph.Invocations();
      if inv in active {
        return Err(CyclicDependency(key));
      }
      if inv !in done && inv !in completed {
        r := Invoke(key, inv);
        if r.Err? {
          return;
        }
      } else {
        RecallIsEval(graph, Memo(), key, active);
      }
      r := Ok(if key in pending then pending[key] else Null);
    }

    /** Run the owner of a fact under the cycle check and keep its outputs pending. */
    method Invoke(key: Key, inv: Invocation) returns (r: Result<Value>)
      requires Valid() && key in graph.owners && inv == graph.Owner(key) && key !in graph.base
      requires inv !in Memo() && inv !in active && inv in graph.Invocations()
      modifies this
      ensures Valid()
      ensures active == old(active) && done == old(done) && facts == old(facts)
      ensures r == Eval(graph, key, old(active)).ToResult()
      ensures completed >= old(completed)
      ensures r.Ok? ==> Memo() == old(Memo()) + Eval(graph, key, old(active)).used
      ensures r.Ok? ==> inv in completed && r.value == Pick(Outputs(graph, inv), key.name)
      ensures Ran(old(started), started, old(Memo()), Memo(), old(active), r.Ok?)
      decreases graph.Invocations() - active, 0, 1
    {
      var outputs := ComputeGuarded(inv);
      if outputs.Err? {
        r := Err(outputs.error);
      } else if !Declared(graph, inv, outputs.value) {
        r := Err(UndeclaredOutput(key));
      } else {
        Remember(inv, outputs.value);
        assert Memo() == old(Memo()) + RunOf(graph, inv, active).used + {inv};
        r := Ok(Pick(outputs.value, key.name));
      }
    }

    /** Compute an invocation while it is marked active, and unmark it however that ends. */
    method ComputeGuarded(inv: Invocation) returns (r: Result<map<string, Value>>)
      requires Valid() && inv !in Memo() && inv !in active && inv in graph.Invocations()
      modifies this
      ensures Valid()
      ensures active == old(active) && done == old(done) && facts == old(facts)
      ensures r == RunOf(graph, inv, active).ToResult()
      ensures completed >= old(completed) && inv !in Memo()
      ensures r.Ok? ==> Memo() == old(Memo()) + RunOf(graph, inv, active).used
      ensures r.Ok? ==> Replays(graph, Memo(), graph.Computation(inv), r.value)
      ensures Ran(old(started), started, old(Memo()), Memo() + {inv}, old(active), r.Ok?)
      decreases graph.Invocations() - active, 0, 0
    {
      active := active + {inv};
      started := started + multiset{inv};
      ghost var counts := started;
      r := Compute(graph.Computation(inv));
      active := active - {inv};
      GuardedRan(old(started), counts, started, inv, old(Memo()), Memo(), active, r.Ok?);
    }

    method Remember(inv: Invocation, outputs: map<string, Value>)
      requires Valid() && inv !in Memo() && inv !in active && inv in graph.Invocations()
      requires Replays(graph, Memo(), graph.Computation(inv), outputs) && Declared(graph, inv, outputs)
      modifies this`pending, this`completed
      ensures Valid() && completed == old(completed) + {inv} && Outputs(graph, inv) == outputs
    {
      ConsistentGrows(graph, completed, done, facts, pending, inv, outputs);
      pending := pending + Keyed(inv, outputs);
      completed := completed + {inv};
    }

    /** Run a computation, resolving each fact it asks for through `Get`. */
    method Compute(t: FactTransforms.Compute) returns (r: Result<map<string, Value>>)
      requires Valid()
      modifies this
      ensures Valid()
      ensures active == old(active) && done == old(done) && facts == old(facts)
      ensures r == Run(graph, t, old(active)).ToResult()
      ensures completed >= old(completed)
      ensures r.Ok? ==> Memo() == old(Memo()) + Run(graph, t, old(active)).used
      ensures r.Ok? ==> Replays(graph, Memo(), t, r.value)
      ensures Ran(old(started), started, old(Memo()), Memo(), old(active), r.Ok?)
      decreases graph.Invocations() - active, 1, t
    {
      match t
      case Done(outputs) => return Ok(outputs);
      case Fail => return Err(ComputeRaised);
      case Ask(key, next) =>
        var answer := Get(key);
        ghost var memo, counts := Memo(), started;
        match answer {
          case Err(e) => return Err(e);
          case Ok(v) =>
            if v !in next {
              return Err(ComputeRaised);
            }
            r := Compute(next[v]);
            RanThen(old(started), counts, started, old(Memo()), memo, Memo(), active, r.Ok?);
        }
    }

    /** Compute the requested facts and everything they need, and commit all of it or nothing. */
    method Materialize(requests: seq<Request>) returns (r: Result<()>)
      requires Idle()
      modifies this
      ensures Idle()
      ensures r == FirstError(graph, nodes, requests)
      ensures r.Ok? ==> done == old(done) + Demand(graph, Keys(requests))
      ensures r.Ok? ==> RanOnce(old(started), started, done - old(done))
      ensures r.Err? ==> facts == old(facts) && done == old(done)
      ensures forall k <- old(facts) :: k in facts && facts[k] == old(facts)[k]
      ensures NotRun(old(started), started, old(done))
      ensures forall inv: Invocation :: started[inv] <= old(started)[inv] + 1
    {
      for i := 0 to |requests|
        invariant Valid() && active == {} && done == old(done) && facts == old(facts)
        invariant FirstError(graph, nodes, requests) == FirstError(graph, nodes, requests[i..])
        invariant Memo() == done + Demand(graph, Keys(requests[..i]))
        invariant Ran(old(started), started, done, Memo(), {}, true)
      {
        ghost var memo, counts := Memo(), started;
        r := Resolve(requests[i]);
        RanThen(old(started), counts, started, done, memo, Memo(), {}, r.Ok?);
        FirstErrorNext(graph, nodes, requests, i);
        if r.Err? {
          Rollback();
          return;
        }
        DemandGrows(graph, requests, i);
      }
      assert requests[..|requests|] == requests;
      assert RanOnce(old(started), started, Memo() - old(done)) && NotRun(old(started), started, old(done));
      Commit();
      r := Ok(());
    }

    /** Resolve one request of a materialization. */
    method Resolve(request: Request) returns (r: Result<()>)
      requires Valid() && active == {}
      modifies this
      ensures Valid() && active == {} && done == old(done) && facts == old(facts) && completed >= old(completed)
      ensures r == Answer(graph, nodes, request)
      ensures r.Ok? ==> Memo() == old(Memo()) + UsedBy(graph, request.Key())
      ensures Ran(old(started), started, old(Memo()), Memo(), {}, r.Ok?)
    {
      if request.node !in nodes || nodes[request.node] != request.identity {
        return Err(ForeignNode(request.node));
      }
      var answer := Get(request.Key());
      r := if answer.Err? then Err(answer.error) else Ok(());
    }

    /** One materialization after another; a failed one leaves no trace. */
    method MaterializeAll(batches: seq<seq<Request>>) returns (results: seq<Result<()>>)
      requires Idle()
      modifies this
      ensures Idle() && facts == FactsOf(graph, done)
      ensures done == AfterBatches(graph, nodes, old(done), batches)
      ensures |results| == |batches|
        && forall i | 0 <= i < |batches| :: results[i] == FirstError(graph, nodes, batches[i])
    {
      results := [];
      for i := 0 to |batches|
        invariant Idle() && |results| == i
        invariant AfterBatches(graph, nodes, old(done), batches) == AfterBatches(graph, nodes, done, batches[i..])
        invariant forall k | 0 <= k < i :: results[k] == FirstError(graph, nodes, batches[k])
      {
        assert batches[i..][0] == batches[i] && batches[i..][1..] == batches[i + 1..];
        var result := Materialize(batches[i]);
        results := results + [result];
      }
      assert batches[|batches|..] == [];
      assert {} + done == done;
    }

    /** Drop whatever a failed materialization had pending. */
    method Rollback()
      requires Valid() && active == {} && Consistent(graph, {}, done, facts, map[])
      modifies this`pending, this`completed
      ensures Idle()
    {
      pending, completed := map[], {};
    }

    /** Write every pending output to its node and remember what produced it. */
    method Commit()
      requires Valid() && active == {}
      modifies this
      ensures Idle()
      ensures done == old(Memo()) && started == old(started)
      ensures forall k <- old(facts) :: k in facts && facts[k] == old(facts)[k]
    {
      ConsistentCommits(graph, completed, done, facts, pending);
      CheckConflicts();
      WritePending();
      done := done + completed;
      pending, completed := map[], {};
    }

    /** The commit-time check for a fact that is already there; it cannot fire. */
    method CheckConflicts()
      requires pending.Keys !! facts.Keys
    {
      var unchecked := pending.Keys;
      while unchecked != {}
        invariant unchecked <= pending.Keys
        decreases unchecked
      {
        var key :| key in unchecked;
        if key in facts {
          // a conflicting fact write would be raised here
          assert false;
        }
        unchecked := unchecked - {key};
      }
    }

    method WritePending()
      modifies this`facts
      ensures facts == old(facts) + pending
    {
      var unwritten := pending.Keys;
      while unwritten != {}
        invariant unwritten <= pending.Keys
        invariant facts == old(facts) + map k | k in pending && k !in unwritten :: pending[k]
        decreases unwritten
      {
        var key :| key in unwritten;
        facts := facts[key := pending[key]];
        unwritten := unwritten - {key};
      }
    }

    lemma MemoAnswers(key: Key)
      requires Valid() && (key in facts || key in pending)
      ensures Recall(graph, Memo(), key) == Some(if key in facts then facts[key] else pending[key])
      ensures Eval(graph, key, active).Yields?
      ensures Eval(graph, key, active).value == Recall(graph, Memo(), key).value
      ensures Eval(graph, key, active).used <= Memo()
    {
      RecallIsEval(graph, Memo(), key, active);
    }
  }

  lemma DemandGrows(g: Graph, requests: seq<Request>, i: nat)
    requires i < |requests|
    ensures Demand(g, Keys(requests[..i + 1])) == Demand(g, Keys(requests[..i])) + UsedBy(g, requests[i].Key())
  {
    assert requests[..i + 1] == requests[..i] + [requests[i]];
    assert Keys(requests[..i + 1]) == Keys(requests[..i]) + {requests[i].Key()};
  }

  // ----- What the facts mean, and why the order of requests does not matter -----

  /** Every fact of an idle context is what evaluation without any memo yields for it. */
  lemma FactsAreEvaluated(g: Graph, done: set<Invocation>, key: Key)
    requires Consistent(g, {}, done, FactsOf(g, done), map[])
    ensures key in FactsOf(g, done) ==> Eval(g, key, {}).ToResult() == Ok(FactsOf(g, done)[key])
    ensures key in FactsOf(g, done) ==>
      exists depth: nat :: PlainEval(g, key, depth) == Returns(Ok(FactsOf(g, done)[key]))
  {
    if key in FactsOf(g, done) {
      assert {} + done == done;
      RecallIsEval(g, done, key, {});
      AnswerIsPlain(g, key, Ok(FactsOf(g, done)[key]));
    }
  }

  /** Once what a key demands is done, reading the key gives its evaluated value, `Null` if it has none. */
  lemma DemandedKeyReads(g: Graph, done: set<Invocation>, key: Key)
    requires Consistent(g, {}, done, FactsOf(g, done), map[])
    requires Eval(g, key, {}).Yields? && UsedBy(g, key) <= done
    ensures Eval(g, key, {}).value == if key in FactsOf(g, done) then FactsOf(g, done)[key] else Null
  {
    assert {} + done == done;
    RecallIsEval(g, done, key, {});
  }

  predicate Answerable(g: Graph, nodes: map<NodeId, nat>, r: Request) {
    r.node in nodes && nodes[r.node] == r.identity && Eval(g, r.Key(), {}).Yields?
  }

  /** A batch succeeds exactly when each request would succeed on its own. */
  lemma {:induction false} BatchSucceeds(g: Graph, nodes: map<NodeId, nat>, batch: seq<Request>)
    ensures FirstError(g, nodes, batch).Ok? <==> forall r <- batch :: Answerable(g, nodes, r)
  {
    if batch == [] {
    } else {
      BatchSucceeds(g, nodes, batch[1..]);
      assert batch[0] in batch && forall r <- batch :: r == batch[0] || r in batch[1..];
      if !Answerable(g, nodes, batch[0]) {
        assert FirstError(g, nodes, batch).Err?;
      }
    }
  }

  /** What is done after a sequence of materializations, failed ones leaving no trace. */
  function AfterBatches(g: Graph, nodes: map<NodeId, nat>, done: set<Invocation>,
                        batches: seq<seq<Request>>): set<Invocation>
    decreases |batches|
  {
    if batches == [] then done
    else
      var next := if FirstError(g, nodes, batches[0]).Ok? then done + Demand(g, Keys(batches[0])) else done;
      AfterBatches(g, nodes, next, batches[1..])
  }

  function Requests(batches: seq<seq<Request>>): set<Request> {
    set batch <- batches, r <- batch :: r
  }

  ghost predicate AllSucceed(g: Graph, nodes: map<NodeId, nat>, batches: seq<seq<Request>>) {
    forall batch <- batches :: FirstError(g, nodes, batch).Ok?
  }

  lemma {:induction false} AfterSuccess(g: Graph, nodes: map<NodeId, nat>, done: set<Invocation>,
                                        batches: seq<seq<Request>>)
    requires AllSucceed(g, nodes, batches)
    ensures AfterBatches(g, nodes, done, batches) == done + Demand(g, set r <- Requests(batches) :: r.Key())
    decreases |batches|
  {
    if batches == [] {
    } else {
      var rest := batches[1..];
      assert batches == [batches[0]] + rest;
      AfterSuccess(g, nodes, done + Demand(g, Keys(batches[0])), rest);
      var all, first := set r <- Requests(batches) :: r.Key(), Keys(batches[0]);
      var others := set r <- Requests(rest) :: r.Key();
      assert Requests(batches) == (set r <- batches[0]) + Requests(rest);
      assert all == first + others;
      assert Demand(g, all) == Demand(g, first) + Demand(g, others);
    }
  }

  /** Splitting, merging, repeating or reordering the requests changes neither whether all of them
      succeed nor the facts they leave behind. */
  lemma OrderIrrelevant(g: Graph, nodes: map<NodeId, nat>, done: set<Invocation>,
                        batches: seq<seq<Request>>, others: seq<seq<Request>>)
    requires Requests(batches) == Requests(others)
    requires AllSucceed(g, nodes, batches)
    ensures AllSucceed(g, nodes, others)
    ensures FactsOf(g, AfterBatches(g, nodes, done, batches)) == FactsOf(g, AfterBatches(g, nodes, done, others))
  {
    forall batch <- others ensures FirstError(g, nodes, batch).Ok? {
      forall r <- batch ensures Answerable(g, nodes, r) {
        assert r in Requests(batches);
        var b :| b in batches && r in b;
        BatchSucceeds(g, nodes, b);
      }
      BatchSucceeds(g, nodes, batch);
    }
    AfterSuccess(g, nodes, done, batches);
    AfterSuccess(g, nodes, done, others);
  }
}
