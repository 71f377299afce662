/** Which transform owns which fact: the construction of a transform context's producer table. */
module TransformOwners {
  import opened FactTransforms

  /** One transform claiming one output name at one node. */
  datatype Claim = Claim(key: Key, transform: nat)

  function NodeClaims(node: NodeId, transforms: seq<Transform>, from: nat): seq<Claim>
    requires from <= |transforms|
    decreases |transforms| - from
  {
    if from == |transforms| then []
    else NamedClaims(node, transforms[from], from, 0) + NodeClaims(node, transforms, from + 1)
  }

  function NamedClaims(node: NodeId, t: Transform, index: nat, from: nat): seq<Claim>
    decreases |t.produces| - from
  {
    if !t.applies(node) || from >= |t.produces| then []
    else [Claim(Key(node, t.produces[from]), index)] + NamedClaims(node, t, index, from + 1)
  }

  /** All claims, in the order the nodes, the transforms and their output names are gone through. */
  function Claims(nodes: seq<NodeId>, transforms: seq<Transform>): seq<Claim> {
    if nodes == [] then [] else NodeClaims(nodes[0], transforms, 0) + Claims(nodes[1..], transforms)
  }

  ghost predicate MakesClaim(node: NodeId, transforms: seq<Transform>, c: Claim) {
    && c.key.node == node && c.transform < |transforms|
    && transforms[c.transform].applies(node) && c.key.name in transforms[c.transform].produces
  }

  lemma {:induction false} NamedClaimsExact(node: NodeId, t: Transform, index: nat, from: nat, c: Claim)
    ensures c in NamedClaims(node, t, index, from)
       <==> (from < |t.produces| && t.applies(node) && c.transform == index && c.key.node == node
             && c.key.name in t.produces[from..])
    decreases |t.produces| - from
  {
    if !t.applies(node) || from >= |t.produces| {
    } else {
      NamedClaimsExact(node, t, index, from + 1, c);
      assert t.produces[from..] == [t.produces[from]] + t.produces[from + 1..];
    }
  }

  lemma {:induction false} NodeClaimsExact(node: NodeId, transforms: seq<Transform>, from: nat, c: Claim)
    requires from <= |transforms|
    ensures c in NodeClaims(node, transforms, from) <==> c.transform >= from && MakesClaim(node, transforms, c)
    decreases |transforms| - from
  {
    if from == |transforms| {
    } else {
      var t, rest := transforms[from], NodeClaims(node, transforms, from + 1);
      NodeClaimsExact(node, transforms, from + 1, c);
      NamedClaimsExact(node, t, from, 0, c);
      assert t.produces[0..] == t.produces;
      assert c in NodeClaims(node, transforms, from) <==> c in NamedClaims(node, t, from, 0) || c in rest;
    }
  }

  /** A claim is made exactly by a transform that applies to the node and declares the output. */
  lemma {:induction false} ClaimsExact(nodes: seq<NodeId>, transforms: seq<Transform>, c: Claim)
    ensures c in Claims(nodes, transforms) <==> c.key.node in nodes && MakesClaim(c.key.node, transforms, c)
  {
    if nodes == [] {
    } else {
      assert nodes == [nodes[0]] + nodes[1..];
      NodeClaimsExact(nodes[0], transforms, 0, c);
      ClaimsExact(nodes[1..], transforms, c);
    }
  }

  /** Enter the claims one by one; a key with a base fact or an owner already is a conflict. */
  function Register(base: map<Key, Value>, owners: map<Key, nat>, claims: seq<Claim>): Result<map<Key, nat>>
    decreases |claims|
  {
    if claims == [] then Ok(owners)
    else
      var c := claims[0];
      if c.key in base || c.key in owners then Err(ConflictingProducer(c.key))
      else Register(base, owners[c.key := c.transform], claims[1..])
  }

  lemma {:induction false} RegisterSplit(base: map<Key, Value>, owners: map<Key, nat>, first: seq<Claim>,
                                         second: seq<Claim>)
    ensures Register(base, owners, first + second)
         == match Register(base, owners, first) { case Err(e) => Err(e) case Ok(o) => Register(base, o, second) }
    decreases |first|
  {
    if first == [] {
      assert first + second == second;
    } else {
      assert (first + second)[1..] == first[1..] + second;
      var c := first[0];
      if c.key !in base && c.key !in owners {
        RegisterSplit(base, owners[c.key := c.transform], first[1..], second);
      }
    }
  }

  ghost predicate Distinct(claims: seq<Claim>) {
    forall i, j | 0 <= i < j < |claims| :: claims[i].key != claims[j].key
  }

  ghost predicate Free(base: map<Key, Value>, owners: map<Key, nat>, claims: seq<Claim>) {
    forall c <- claims :: c.key !in base && c.key !in owners
  }

  ghost predicate Owns(owners: map<Key, nat>, k: Key, t: nat) {
    k in owners && owners[k] == t
  }

  /** Registration succeeds exactly when no fact is claimed twice or present already, and then the
      owners are exactly the claims. */
  lemma {:induction false} RegisterExact(base: map<Key, Value>, owners: map<Key, nat>, claims: seq<Claim>)
    ensures Register(base, owners, claims).Ok? <==> Distinct(claims) && Free(base, owners, claims)
    ensures Register(base, owners, claims).Ok? ==>
              forall k: Key, t: nat ::
                Owns(Register(base, owners, claims).value, k, t) <==> Owns(owners, k, t) || Claim(k, t) in claims
    decreases |claims|
  {
    if claims == [] {
    } else {
      var c, rest := claims[0], claims[1..];
      assert claims == [c] + rest;
      assert forall d :: d in claims <==> d == c || d in rest;
      if c.key !in base && c.key !in owners {
        ConsClaims(base, owners, c, rest);
        var grown := owners[c.key := c.transform];
        RegisterExact(base, grown, rest);
        forall k: Key, t: nat
          ensures Owns(grown, k, t) || Claim(k, t) in rest <==> Owns(owners, k, t) || Claim(k, t) in claims
        {
        }
      }
    }
  }

  /** A refusal names the first claim on a fact that is there, owned, or claimed before. */
  lemma {:induction false} RegisterBlames(base: map<Key, Value>, owners: map<Key, nat>, claims: seq<Claim>)
    returns (i: nat)
    requires Register(base, owners, claims).Err?
    ensures i < |claims| && Register(base, owners, claims).error == ConflictingProducer(claims[i].key)
    ensures claims[i].key in base || claims[i].key in owners || exists j | 0 <= j < i :: claims[j].key == claims[i].key
    ensures Register(base, owners, claims[..i]).Ok?
    decreases |claims|
  {
    var c := claims[0];
    if c.key in base || c.key in owners {
      i := 0;
    } else {
      var k := RegisterBlames(base, owners[c.key := c.transform], claims[1..]);
      i := k + 1;
      assert claims[1..][k] == claims[i] && claims[..i][1..] == claims[1..][..k];
      if claims[i].key == c.key { assert claims[0].key == claims[i].key; }
      if j :| 0 <= j < k && claims[1..][j].key == claims[1..][k].key { assert claims[j + 1].key == claims[i].key; }
    }
  }

  lemma ConsClaims(base: map<Key, Value>, owners: map<Key, nat>, c: Claim, rest: seq<Claim>)
    requires c.key !in base && c.key !in owners
    ensures Distinct([c] + rest) && Free(base, owners, [c] + rest)
       <==> Distinct(rest) && Free(base, owners[c.key := c.transform], rest)
  {
    if Distinct([c] + rest) && Free(base, owners, [c] + rest) {
      TailClaims(base, owners, c, rest);
    }
    if Distinct(rest) && Free(base, owners[c.key := c.transform], rest) {
      HeadClaims(base, owners, c, rest);
    }
  }

  lemma TailClaims(base: map<Key, Value>, owners: map<Key, nat>, c: Claim, rest: seq<Claim>)
    requires Distinct([c] + rest) && Free(base, owners, [c] + rest)
    ensures Distinct(rest) && Free(base, owners[c.key := c.transform], rest)
  {
    var claims := [c] + rest;
    forall d <- rest ensures d.key !in base && d.key !in owners[c.key := c.transform] {
      var j :| 0 <= j < |rest| && rest[j] == d;
      assert claims[0].key != claims[j + 1].key;
      assert d in claims;
    }
    forall i, j | 0 <= i < j < |rest| ensures rest[i].key != rest[j].key {
      assert claims[i + 1].key != claims[j + 1].key;
    }
  }

  lemma HeadClaims(base: map<Key, Value>, owners: map<Key, nat>, c: Claim, rest: seq<Claim>)
    requires c.key !in base && c.key !in owners
    requires Distinct(rest) && Free(base, owners[c.key := c.transform], rest)
    ensures Distinct([c] + rest) && Free(base, owners, [c] + rest)
  {
    var claims := [c] + rest;
    forall i, j | 0 <= i < j < |claims| ensures claims[i].key != claims[j].key {
      assert claims[j] == rest[j - 1] && rest[j - 1] in rest;
    }
  }

  /** Build the producer table, failing on the first fact with a value or an owner already. */
  method AssignOwners(nodes: seq<NodeId>, base: map<Key, Value>, transforms: seq<Transform>)
    returns (r: Result<map<Key, nat>>)
    ensures r == Register(base, map[], Claims(nodes, transforms))
  {
    var owners: map<Key, nat> := map[];
    for n := 0 to |nodes|
      invariant Register(base, map[], Claims(nodes, transforms))
        == Register(base, owners, Claims(nodes[n..], transforms))
    {
      assert nodes[n..][1..] == nodes[n + 1..];
      RegisterSplit(base, owners, NodeClaims(nodes[n], transforms, 0), Claims(nodes[n + 1..], transforms));
      r := ClaimAtNode(base, owners, nodes[n], transforms);
      if r.Err? {
        return;
      }
      owners := r.value;
    }
    r := Ok(owners);
  }

  method ClaimAtNode(base: map<Key, Value>, owners0: map<Key, nat>, node: NodeId, transforms: seq<Transform>)
    returns (r: Result<map<Key, nat>>)
    ensures r == Register(base, owners0, NodeClaims(node, transforms, 0))
  {
    var owners: map<Key, nat> := owners0;
    for t := 0 to |transforms|
      invariant Register(base, owners0, NodeClaims(node, transforms, 0))
        == Register(base, owners, NodeClaims(node, transforms, t))
    {
      RegisterSplit(base, owners, NamedClaims(node, transforms[t], t, 0), NodeClaims(node, transforms, t + 1));
      if transforms[t].applies(node) {
        r := ClaimOutputs(base, owners, node, transforms[t], t);
        if r.Err? {
          return;
        }
        owners := r.value;
      }
    }
    r := Ok(owners);
  }

  method ClaimOutputs(base: map<Key, Value>, owners0: map<Key, nat>, node: NodeId, t: Transform, index: nat)
    returns (r: Result<map<Key, nat>>)
    requires t.applies(node)
    ensures r == Register(base, owners0, NamedClaims(node, t, index, 0))
  {
    var owners: map<Key, nat> := owners0;
    for p := 0 to |t.produces|
      invariant Register(base, owners0, NamedClaims(node, t, index, 0))
        == Register(base, owners, NamedClaims(node, t, index, p))
    {
      var key := Key(node, t.produces[p]);
      assert NamedClaims(node, t, index, p)[1..] == NamedClaims(node, t, index, p + 1);
      if key in base || key in owners {
        return Err(ConflictingProducer(key));
      }
      owners := owners[key := index];
    }
    r := Ok(owners);
  }

  /** A table that was built without conflict gives a graph on which evaluation is well defined. */
  lemma OwnersGiveValidGraph(nodes: seq<NodeId>, base: map<Key, Value>, transforms: seq<Transform>)
    requires Register(base, map[], Claims(nodes, transforms)).Ok?
    ensures var g := Graph(base, transforms, Register(base, map[], Claims(nodes, transforms)).value);
            g.Valid() && forall k <- g.owners :: k.node in nodes
  {
    var claims := Claims(nodes, transforms);
    var owners := Register(base, map[], claims).value;
    var g := Graph(base, transforms, owners);
    RegisterExact(base, map[], claims);
    forall k <- owners
      ensures k !in base && k.node in nodes && k.name in g.Produces(g.Owner(k)) && g.OwnsAll(g.Owner(k))
    {
      assert Owns(owners, k, owners[k]);
      ClaimsExact(nodes, transforms, Claim(k, owners[k]));
      forall name <- g.Produces(g.Owner(k))
        ensures Key(k.node, name) in owners && owners[Key(k.node, name)] == owners[k]
      {
        ClaimsExact(nodes, transforms, Claim(Key(k.node, name), owners[k]));
        assert Owns(owners, Key(k.node, name), owners[k]);
      }
    }
    assert base.Keys !! owners.Keys;
  }
}
