/** An index from address to owner, kept up to date by put and drop events:
    exactly which events keep it equal to the index of the live objects. */
module AddressIndex {
  import opened Text

  type Id = (string, string)

  /** What the handlers see of an object; an empty address is not indexed. */
  datatype Owner<I> = Owner(ip: string, info: I)

  datatype Op<I> =
    | Put(id: Id, owner: Owner<I>)      // added or updated
    | Drop(id: Id, ip: string)          // deleted; `ip` is the address the delete names

  type Live<I> = map<Id, Owner<I>>

  function IndexStep<I>(index: map<string, I>, op: Op<I>): map<string, I> {
    match op
    case Put(_, o) => if o.ip == "" then index else index[o.ip := o.info]
    case Drop(_, ip) => if ip == "" then index else index - {ip}
  }

  function LiveStep<I>(live: Live<I>, op: Op<I>): Live<I> {
    match op
    case Put(id, o) => live[id := o]
    case Drop(id, _) => live - {id}
  }

  function IndexRun<I>(index: map<string, I>, ops: seq<Op<I>>): map<string, I>
    decreases |ops|
  {
    if ops == [] then index else IndexStep(IndexRun(index, Front(ops)), Last(ops))
  }

  function LiveRun<I>(live: Live<I>, ops: seq<Op<I>>): Live<I>
    decreases |ops|
  {
    if ops == [] then live else LiveStep(LiveRun(live, Front(ops)), Last(ops))
  }

  predicate Owns<I>(live: Live<I>, id: Id, ip: string) { ip != "" && id in live && live[id].ip == ip }

  /** No address has two owners. */
  ghost predicate DistinctOwners<I>(live: Live<I>) {
    forall i, j, ip :: Owns(live, i, ip) && Owns(live, j, ip) ==> i == j
  }

  /** The index holds the info of every owner of an address, and nothing else. */
  ghost predicate Agrees<I>(index: map<string, I>, live: Live<I>) {
    && (forall id, ip :: Owns(live, id, ip) ==> ip in index && index[ip] == live[id].info)
    && (forall ip :: ip in index ==> exists id :: Owns(live, id, ip))
  }

  function AddressOf<I>(live: Live<I>, id: Id): string { if id in live then live[id].ip else "" }

  /** A put keeps the address the object had, if it had one; a delete names the
      address the object had, or one that nobody has. */
  ghost predicate Faithful<I>(live: Live<I>, op: Op<I>) {
    match op
    case Put(id, o) => AddressOf(live, id) in {"", o.ip}
    case Drop(id, ip) => ip == AddressOf(live, id) || (AddressOf(live, id) == "" && forall j :: !Owns(live, j, ip))
  }

  lemma PutAgrees<I>(index: map<string, I>, live: Live<I>, id: Id, o: Owner<I>)
    requires Agrees(index, live) && DistinctOwners(live) && DistinctOwners(live[id := o])
    ensures Agrees(IndexStep(index, Put(id, o)), live[id := o]) <==> Faithful(live, Put(id, o))
  {
    var index', live', was := IndexStep(index, Put(id, o)), live[id := o], AddressOf(live, id);
    assert o.ip != "" ==> Owns(live', id, o.ip);
    if Faithful(live, Put(id, o)) {
      forall i, ip | Owns(live', i, ip) ensures ip in index' && index'[ip] == live'[i].info {
        assert i != id ==> Owns(live, i, ip);
      }
      forall ip | ip in index' ensures exists i :: Owns(live', i, ip) {
        if ip == o.ip && ip != "" {
          assert Owns(live', id, ip);
        } else {
          var i :| Owns(live, i, ip);
          assert i != id && Owns(live', i, ip);
        }
      }
    } else {
      assert Owns(live, id, was) && was in index';
      forall i ensures !Owns(live', i, was) {
        if i != id && Owns(live', i, was) { assert Owns(live, i, was); }
      }
    }
  }

  lemma DropAgrees<I>(index: map<string, I>, live: Live<I>, id: Id, ip: string)
    requires Agrees(index, live) && DistinctOwners(live)
    ensures Agrees(IndexStep(index, Drop(id, ip)), live - {id}) <==> Faithful(live, Drop(id, ip))
  {
    var index', live', was := IndexStep(index, Drop(id, ip)), live - {id}, AddressOf(live, id);
    assert was != "" ==> Owns(live, id, was);
    if Faithful(live, Drop(id, ip)) {
      forall i, a | Owns(live', i, a) ensures a in index' && index'[a] == live'[i].info {
        assert Owns(live, i, a);
      }
      forall a | a in index' ensures exists i :: Owns(live', i, a) {
        var i :| Owns(live, i, a);
        assert Owns(live', i, a);
      }
    } else if was != "" {
      assert Owns(live, id, was) && was in index';
      forall i ensures !Owns(live', i, was) {
        if Owns(live', i, was) { assert Owns(live, i, was); }
      }
    } else {
      var j :| Owns(live, j, ip);
      assert Owns(live', j, ip) && ip !in index';
    }
  }

  lemma StepAgrees<I>(index: map<string, I>, live: Live<I>, op: Op<I>)
    requires Agrees(index, live) && DistinctOwners(live) && DistinctOwners(LiveStep(live, op))
    ensures Agrees(IndexStep(index, op), LiveStep(live, op)) <==> Faithful(live, op)
  {
    match op
    case Put(id, o) => PutAgrees(index, live, id, o);
    case Drop(id, ip) => DropAgrees(index, live, id, ip);
  }

  lemma NothingAgrees<I>()
    ensures Agrees<I>(map[], map[])
  {
  }

  ghost predicate AlwaysDistinct<I>(ops: seq<Op<I>>) {
    forall n :: 0 <= n <= |ops| ==> DistinctOwners(LiveRun(map[], ops[..n]))
  }

  ghost predicate AlwaysAgrees<I>(ops: seq<Op<I>>) {
    forall n :: 0 <= n <= |ops| ==> Agrees(IndexRun(map[], ops[..n]), LiveRun(map[], ops[..n]))
  }

  ghost predicate AlwaysFaithful<I>(ops: seq<Op<I>>) {
    forall n :: 0 <= n < |ops| ==> Faithful(LiveRun(map[], ops[..n]), ops[n])
  }

  /** While live addresses are distinct, the index is right at every point of a run if and
      only if every event is faithful. */
  lemma {:induction false} RunAgrees<I>(ops: seq<Op<I>>)
    requires AlwaysDistinct(ops)
    ensures AlwaysAgrees(ops) <==> AlwaysFaithful(ops)
    decreases |ops|
  {
    hide Agrees;
    hide Faithful;
    hide DistinctOwners;
    hide IndexStep;
    hide LiveStep;
    assert ops[..|ops|] == ops;
    if ops == [] {
      NothingAgrees<I>();
    } else {
      var before := Front(ops);
      assert forall n :: 0 <= n <= |before| ==> ops[..n] == before[..n];
      assert before[..|before|] == before;
      RunAgrees(before);
      assert DistinctOwners(LiveRun(map[], ops[..|before|])) && DistinctOwners(LiveRun(map[], ops[..|ops|]));
      assert AlwaysAgrees(ops) <==> AlwaysAgrees(before) && Agrees(IndexRun(map[], ops), LiveRun(map[], ops));
      if AlwaysAgrees(before) {
        assert Agrees(IndexRun(map[], before[..|before|]), LiveRun(map[], before[..|before|]));
        StepAgrees(IndexRun(map[], before), LiveRun(map[], before), Last(ops));
      }
      assert AlwaysFaithful(ops) <==> AlwaysFaithful(before) && Faithful(LiveRun(map[], before), Last(ops)) by {
        assert ops[|before|] == Last(ops) && ops[..|before|] == before;
      }
    }
  }

  /** An object's info tells whose it is. */
  predicate Identified<I>(ops: seq<Op<I>>, key: I -> Id) {
    forall n :: 0 <= n < |ops| ==> ops[n].Put? ==> key(ops[n].owner.info) == ops[n].id
  }

  lemma {:induction false} LiveIdentified<I>(ops: seq<Op<I>>, key: I -> Id)
    requires Identified(ops, key)
    ensures forall id :: id in LiveRun(map[], ops) ==> key(LiveRun(map[], ops)[id].info) == id
    decreases |ops|
  {
    if ops != [] {
      assert forall n :: 0 <= n < |Front(ops)| ==> Front(ops)[n] == ops[n];
      LiveIdentified(Front(ops), key);
      assert Last(ops) == ops[|ops| - 1];
    }
  }

  /** An index that is right is proof that no two live objects share an address. */
  lemma AgreesDistinct<I>(index: map<string, I>, live: Live<I>, key: I -> Id)
    requires Agrees(index, live) && forall id :: id in live ==> key(live[id].info) == id
    ensures DistinctOwners(live)
  {
    forall i, j, ip | Owns(live, i, ip) && Owns(live, j, ip) ensures i == j {
      assert index[ip] == live[i].info == live[j].info;
    }
  }

  /** Main result: the index is right at every point of a run if and only if live addresses
      stay distinct and every event is faithful. */
  lemma RunAgreesExactly<I>(ops: seq<Op<I>>, key: I -> Id)
    requires Identified(ops, key)
    ensures AlwaysAgrees(ops) <==> AlwaysDistinct(ops) && AlwaysFaithful(ops)
  {
    if AlwaysAgrees(ops) {
      forall n | 0 <= n <= |ops| ensures DistinctOwners(LiveRun(map[], ops[..n])) {
        LiveIdentified(ops[..n], key);
        AgreesDistinct(IndexRun(map[], ops[..n]), LiveRun(map[], ops[..n]), key);
      }
    }
    if AlwaysDistinct(ops) { RunAgrees(ops); }
  }
}
