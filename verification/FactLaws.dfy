/** What a request for a fact answers, told from the transforms and their computations alone. */
module FactLaws {
  import opened Wrappers
  import opened FactTransforms
  import opened TransformContexts

  // ----- A computation's talk -----

  /** A question and the answer it got. */
  datatype Exchange = Exchange(key: Key, value: Value)

  /** From `t` the computation asks and hears the exchanges in turn, and has then come to `end`. */
  ghost predicate Talks(t: Compute, talk: seq<Exchange>, end: Compute)
    decreases |talk|
  {
    if talk == [] then t == end
    else t.Ask? && t.key == talk[0].key && talk[0].value in t.next && Talks(t.next[talk[0].value], talk[1..], end)
  }

  /** Each question of the talk is answered so while `active` is being computed. */
  ghost predicate Heard(g: Graph, talk: seq<Exchange>, active: set<Invocation>) {
    forall i | 0 <= i < |talk| :: Eval(g, talk[i].key, active).ToResult() == Ok(talk[i].value)
  }

  /** Here the computation goes no further: it is done, fails, or asks what raises or what it cannot go on from. */
  predicate Stops(g: Graph, end: Compute, active: set<Invocation>) {
    end.Ask? ==>
      match Eval(g, end.key, active).ToResult()
      case Err(_) => true
      case Ok(v) => v !in end.next
  }

  /** Every computation has such a talk. */
  lemma {:induction false} SomeTalk(g: Graph, t: Compute, active: set<Invocation>)
    returns (talk: seq<Exchange>, end: Compute)
    ensures Talks(t, talk, end) && Heard(g, talk, active) && Stops(g, end, active)
    decreases t
  {
    if Stops(g, t, active) {
      talk, end := [], t;
    } else {
      var v := Eval(g, t.key, active).value;
      var rest, last := SomeTalk(g, t.next[v], active);
      talk, end := [Exchange(t.key, v)] + rest, last;
      assert talk[1..] == rest;
    }
  }

  lemma {:induction false} TalkRuns(g: Graph, t: Compute, talk: seq<Exchange>, end: Compute, active: set<Invocation>)
    requires Talks(t, talk, end) && Heard(g, talk, active)
    ensures Run(g, t, active).ToResult() == Run(g, end, active).ToResult()
    decreases |talk|
  {
    if talk == [] {
    } else {
      assert Eval(g, talk[0].key, active).ToResult() == Ok(talk[0].value);
      forall i | 0 <= i < |talk[1..]| ensures Eval(g, talk[1..][i].key, active).ToResult() == Ok(talk[1..][i].value) {
        assert Eval(g, talk[i + 1].key, active).ToResult() == Ok(talk[i + 1].value);
      }
      TalkRuns(g, t.next[talk[0].value], talk[1..], end, active);
    }
  }

  // ----- What a request answers -----

  /** A fact that is there is read; one that nobody produces is null; one whose owner is being computed is a cycle. */
  lemma PlainReads(g: Graph, key: Key, active: set<Invocation>)
    ensures key in g.base ==> Eval(g, key, active).ToResult() == Ok(g.base[key])
    ensures key !in g.base && key !in g.owners ==> Eval(g, key, active).ToResult() == Ok(Null)
    ensures key !in g.base && key in g.owners && Invocation(key.node, g.owners[key]) in active ==>
      Eval(g, key, active).ToResult() == Err(CyclicDependency(key))
  {
  }

  /** Otherwise its owner's computation is run on the node. Outputs are accepted exactly if each is among those
      the transform produces, which need not all be there; an output left out reads as null. */
  lemma OwnedReads(g: Graph, key: Key, active: set<Invocation>, talk: seq<Exchange>, end: Compute)
    requires key !in g.base && key in g.owners && g.owners[key] < |g.transforms|
    requires Invocation(key.node, g.owners[key]) !in active
    requires var inside := active + {Invocation(key.node, g.owners[key])};
      Talks(g.transforms[g.owners[key]].compute(key.node), talk, end) && Heard(g, talk, inside) && Stops(g, end, inside)
    ensures var inside := active + {Invocation(key.node, g.owners[key])};
      Eval(g, key, active).ToResult() ==
      match end
      case Done(outputs) =>
        if forall name <- outputs :: name in g.transforms[g.owners[key]].produces
        then Ok(if key.name in outputs then outputs[key.name] else Null) else Err(UndeclaredOutput(key))
      case Fail => Err(ComputeRaised)
      case Ask(asked, _) =>
        var answer := Eval(g, asked, inside).ToResult();
        if answer.Err? then Err(answer.error) else Err(ComputeRaised)
  {
    TalkRuns(g, g.transforms[g.owners[key]].compute(key.node), talk, end,
      active + {Invocation(key.node, g.owners[key])});
  }

  /** A finished owner leaves exactly its outputs among the facts, whatever they are, and an unfinished one none. */
  lemma FactsWritten(g: Graph, done: set<Invocation>, key: Key, talk: seq<Exchange>, outputs: map<string, Value>)
    requires key !in g.base && key in g.owners && g.owners[key] < |g.transforms|
    requires var inv := Invocation(key.node, g.owners[key]);
      Talks(g.transforms[g.owners[key]].compute(key.node), talk, Done(outputs)) && Heard(g, talk, {inv})
    ensures var facts, inv := FactsOf(g, done), Invocation(key.node, g.owners[key]);
      && (key in facts <==> inv in done && key.name in outputs)
      && (key in facts ==> facts[key] == outputs[key.name])
  {
    var inv := Invocation(key.node, g.owners[key]);
    TalkRuns(g, g.transforms[g.owners[key]].compute(key.node), talk, Done(outputs), {inv});
    assert {} + {inv} == {inv};
  }

  // ----- What a materialization answers -----

  /** One request is refused for a node that is not the trace's own, and answers as evaluation does otherwise. */
  lemma RequestAnswers(g: Graph, nodes: map<NodeId, nat>, r: Request)
    ensures r.node !in nodes || nodes[r.node] != r.identity ==>
      FirstError(g, nodes, [r]) == FactTransforms.Err(ForeignNode(r.node))
    ensures r.node in nodes && nodes[r.node] == r.identity ==>
      var answer := Eval(g, Key(r.node, r.name), {}).ToResult();
      FirstError(g, nodes, [r]) == if answer.Ok? then FactTransforms.Ok(()) else FactTransforms.Err(answer.error)
  {
    assert [r][1..] == [];
  }

  /** A batch answers with the answer of its first request that fails, and succeeds if there is none. */
  lemma {:induction false} BatchAnswers(g: Graph, nodes: map<NodeId, nat>, batch: seq<Request>, i: nat)
    requires i <= |batch| && forall k | 0 <= k < i :: FirstError(g, nodes, [batch[k]]).Ok?
    ensures i < |batch| && FirstError(g, nodes, [batch[i]]).Err? ==>
      FirstError(g, nodes, batch) == FirstError(g, nodes, [batch[i]])
    ensures i == |batch| ==> FirstError(g, nodes, batch).Ok?
    decreases i
  {
    if i == 0 {
      if batch != [] { SingleAnswers(g, nodes, batch[0]); }
    } else {
      SingleAnswers(g, nodes, batch[0]);
      forall k | 0 <= k < i - 1 ensures FirstError(g, nodes, [batch[1..][k]]).Ok? {
        assert FirstError(g, nodes, [batch[k + 1]]).Ok?;
      }
      BatchAnswers(g, nodes, batch[1..], i - 1);
    }
  }

  lemma SingleAnswers(g: Graph, nodes: map<NodeId, nat>, r: Request)
    ensures FirstError(g, nodes, [r]) == Answer(g, nodes, r)
  {
    assert [r][1..] == [];
  }
}
