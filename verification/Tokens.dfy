// The cross-world token coordinator: server/knowledgeserver/tokens.go.
//
// No token hash may be valid in two worlds, not even between two of the publishes one reload
// makes, and not after a reload that stopped half way.
module Tokens {
  import opened Wrappers

  /** The token hashes one store accepts. */
  type Hashes = set<string>

  /** What LoadTokens gives for one world: an error, no store, or a store. */
  datatype Loaded = Failed | NoStore | Loaded(hashes: Hashes)

  class Runtime {
    /** The store in force, if any. */
    var store: Option<Hashes>

    constructor (store: Option<Hashes>)
      ensures this.store == store
    {
      this.store := store;
    }
  }

  /** No hash in two stores. */
  ghost predicate Unique(stores: seq<Hashes>) {
    forall i, j :: 0 <= i < j < |stores| ==> stores[i] !! stores[j]
  }

  ghost predicate AllPresent(stores: seq<Option<Hashes>>) { forall i :: 0 <= i < |stores| ==> stores[i].Some? }

  function Values(stores: seq<Option<Hashes>>): (r: seq<Hashes>)
    requires forall i :: 0 <= i < |stores| ==> stores[i].Some?
    ensures |r| == |stores| && forall i :: 0 <= i < |r| ==> Some(r[i]) == stores[i]
  {
    seq(|stores|, i requires 0 <= i < |stores| => stores[i].value)
  }

  /** validateUniqueTokens: present stores with no hash in common, found by an owner map. */
  method ValidateUnique(stores: seq<Option<Hashes>>) returns (ok: bool)
    ensures ok <==> AllPresent(stores) && Unique(Values(stores))
  {
    var owners: map<string, nat> := map[];
    for i := 0 to |stores|
      invariant AllPresent(stores[..i])
      invariant Unique(Values(stores[..i]))
      invariant forall h :: h in owners <==> exists j :: 0 <= j < i && h in stores[j].value
      invariant forall h <- owners :: owners[h] < i && h in stores[owners[h]].value
    {
      if stores[i].None? { return false; }
      var todo := stores[i].value;
      ghost var before := owners;
      while todo != {}
        invariant todo <= stores[i].value
        invariant forall h :: h in owners <==> h in before || h in stores[i].value - todo
        invariant forall h <- stores[i].value - todo :: h !in before
        invariant forall h <- owners :: if h in before then owners[h] == before[h] else owners[h] == i
        decreases todo
      {
        var h :| h in todo;
        if h in owners {
          return false;
        }
        owners := owners[h := i];
        todo := todo - {h};
      }
      assert stores[..i + 1] == stores[..i] + [stores[i]];
      forall h ensures h in owners <==> exists j :: 0 <= j < i + 1 && h in stores[j].value {
        if h in stores[i].value { assert h in owners; }
      }
    }
    assert stores[..|stores|] == stores;
    return true;
  }

  predicate AllLoaded(loaded: seq<Loaded>) { forall i :: 0 <= i < |loaded| ==> loaded[i].Loaded? }

  function HashesOf(loaded: seq<Loaded>): seq<Hashes>
    requires AllLoaded(loaded)
  {
    seq(|loaded|, i requires 0 <= i < |loaded| => loaded[i].hashes)
  }

  /** No candidate holds a hash that another world holds now. */
  ghost predicate NoTransfer(current: seq<Hashes>, candidates: seq<Hashes>)
    requires |current| == |candidates|
  {
    forall i, j :: 0 <= i < |current| && 0 <= j < |current| && i != j ==> current[i] !! candidates[j]
  }

  /** Publishing the first n candidates over the current stores. */
  function Mixed(current: seq<Hashes>, candidates: seq<Hashes>, n: nat): seq<Hashes>
    requires |current| == |candidates| && n <= |current|
  {
    candidates[..n] + current[n..]
  }

  /** Old and new stores never share a hash, however far a reload gets. */
  lemma MixedUnique(current: seq<Hashes>, candidates: seq<Hashes>, n: nat)
    requires |current| == |candidates| && n <= |current|
    requires Unique(current) && Unique(candidates) && NoTransfer(current, candidates)
    ensures Unique(Mixed(current, candidates, n))
  {
  }

  /** Moving a hash to a world published earlier would put it in two worlds part way through. */
  lemma TransferShares(current: seq<Hashes>, candidates: seq<Hashes>, i: nat, j: nat)
    requires |current| == |candidates| && j < i < |current| && !(current[i] !! candidates[j])
    ensures exists n :: 0 <= n <= |current| && !Unique(Mixed(current, candidates, n))
  {
    var mixed := Mixed(current, candidates, j + 1);
    assert mixed[j] == candidates[j] && mixed[i] == current[i];
  }

  class Coordinator {
    var worlds: seq<Runtime>

    ghost predicate Distinct(worlds: seq<Runtime>) {
      forall i, j :: 0 <= i < j < |worlds| ==> worlds[i] != worlds[j]
    }

    /** The stores of the coordinated worlds. */
    ghost function Stores(worlds: seq<Runtime>): (r: seq<Option<Hashes>>)
      reads worlds
      ensures |r| == |worlds| && forall i :: 0 <= i < |worlds| ==> r[i] == worlds[i].store
    {
      seq(|worlds|, i requires 0 <= i < |worlds| reads worlds => worlds[i].store)
    }

    ghost predicate Valid()
      reads this, worlds
    {
      Distinct(worlds) && AllPresent(Stores(worlds)) && Unique(Values(Stores(worlds)))
    }

    constructor ()
      ensures Valid() && worlds == []
    {
      worlds := [];
    }

    method ValidateWorlds(candidate: seq<Runtime>) returns (ok: bool)
      ensures ok <==> AllPresent(Stores(candidate)) && Unique(Values(Stores(candidate)))
    {
      var stores: seq<Option<Hashes>> := [];
      for i := 0 to |candidate|
        invariant |stores| == i && forall j :: 0 <= j < i ==> stores[j] == candidate[j].store
      {
        stores := stores + [candidate[i].store];
      }
      assert stores == Stores(candidate);
      ok := ValidateUnique(stores);
    }

    /** Replaces the coordinated worlds if their stores share no hash. */
    method SetWorlds(replacement: seq<Runtime>) returns (ok: bool)
      requires Valid() && Distinct(replacement)
      modifies `worlds
      ensures Valid()
      ensures worlds == if ok then replacement else old(worlds)
      ensures ok <==> AllPresent(Stores(replacement)) && Unique(Values(Stores(replacement)))
    {
      ok := ValidateWorlds(replacement);
      if ok { worlds := replacement; }
    }

    /** validateTransition: refuses a reload that moves a live hash to another world. */
    method ValidateTransition(candidates: seq<Hashes>) returns (ok: bool)
      requires Valid() && |candidates| == |worlds|
      ensures ok <==> NoTransfer(Values(Stores(worlds)), candidates)
    {
      ghost var current := Values(Stores(worlds));
      var owners: map<string, nat> := map[];
      for i := 0 to |worlds|
        invariant forall h <- owners :: owners[h] < i && h in current[owners[h]]
        invariant forall j, h :: 0 <= j < i && h in current[j] ==> h in owners
      {
        var todo := worlds[i].store.value;
        while todo != {}
          invariant todo <= current[i]
          invariant forall h <- owners :: owners[h] <= i && h in current[owners[h]]
          invariant forall j, h :: 0 <= j < i && h in current[j] ==> h in owners
          invariant forall h <- current[i] :: h in todo || h in owners
          decreases todo
        {
          var h :| h in todo;
          owners := owners[h := i];
          todo := todo - {h};
        }
      }
      for j := 0 to |candidates|
        invariant forall i, k :: 0 <= i < |current| && 0 <= k < j && i != k ==> current[i] !! candidates[k]
      {
        var todo := candidates[j];
        while todo != {}
          invariant todo <= candidates[j]
          invariant forall h <- candidates[j] :: h in todo || !HeldElsewhere(current, j, h)
          decreases todo
        {
          var h :| h in todo;
          if h in owners && owners[h] != j {
            assert h in current[owners[h]];
            return false;
          }
          todo := todo - {h};
        }
      }
      return true;
    }

    /** Publishes store by store, up to the first failure; states are the coordinated stores after each publish. */
    method PublishAll(candidates: seq<Hashes>, fails: set<nat>, ghost current: seq<Hashes>)
      returns (ok: bool, ghost states: seq<seq<Hashes>>)
      requires Distinct(worlds) && |candidates| == |worlds| == |current|
      requires forall j :: 0 <= j < |worlds| ==> worlds[j].store == Some(current[j])
      modifies worlds
      ensures 1 <= |states| <= |worlds| + 1 && forall k :: 0 <= k < |states| ==> states[k] == Mixed(current, candidates, k)
      ensures forall j :: 0 <= j < |worlds| ==> worlds[j].store == Some(Mixed(current, candidates, |states| - 1)[j])
      ensures if ok then |states| == |worlds| + 1 else |states| <= |worlds| && |states| - 1 in fails
      ensures forall k <- fails :: k >= |states| - 1
    {
      hide Mixed;
      states := [Mixed(current, candidates, 0)];
      for i := 0 to |worlds|
        invariant |states| == i + 1 && forall k :: 0 <= k <= i ==> states[k] == Mixed(current, candidates, k)
        invariant forall j :: 0 <= j < i ==> worlds[j].store == Some(candidates[j])
        invariant forall j :: i <= j < |worlds| ==> worlds[j].store == Some(current[j])
        invariant forall k <- fails :: k >= i
      {
        if i in fails {
          MixedAt(current, candidates, i);
          return false, states;
        }
        worlds[i].store := Some(candidates[i]);
        states := states + [Mixed(current, candidates, i + 1)];
      }
      MixedAt(current, candidates, |worlds|);
      return true, states;
    }

    /**
     * Loads, checks and publishes every world's tokens. states records the coordinated stores
     * at the start and after each publish, the ones a failing publish leaves behind included.
     */
    method Reload(loaded: seq<Loaded>, publishFails: set<nat>) returns (ok: bool, ghost states: seq<seq<Hashes>>)
      requires Valid() && |loaded| == |worlds|
      modifies worlds
      ensures Valid()
      ensures |states| > 0 && states[0] == old(Values(Stores(worlds)))
      ensures states[|states| - 1] == Values(Stores(worlds))
      ensures forall k :: 0 <= k < |states| ==> Unique(states[k])
      ensures ok ==> forall i :: 0 <= i < |worlds| ==> loaded[i].Loaded? && worlds[i].store == Some(loaded[i].hashes)
      ensures !ok && publishFails == {} ==> forall w <- worlds :: w.store == old(w.store)
      ensures publishFails == {} ==> (ok <==>
        AllLoaded(loaded) && Unique(HashesOf(loaded)) && NoTransfer(states[0], HashesOf(loaded)))
    {
      hide Unique;
      hide NoTransfer;
      hide Mixed;
      ghost var current := Values(Stores(worlds));
      states := [current];
      var candidates := LoadAll(loaded);
      if candidates.None? { return false, states; }
      var hashes := candidates.value;
      var unique := ValidateUnique(seq(|hashes|, i requires 0 <= i < |hashes| => Some(hashes[i])));
      assert Values(seq(|hashes|, i requires 0 <= i < |hashes| => Some(hashes[i]))) == hashes;
      if !unique { return false, states; }
      var safe := ValidateTransition(hashes);
      if !safe { return false, states; }
      forall n | 0 <= n <= |worlds| ensures Unique(Mixed(current, hashes, n)) { MixedUnique(current, hashes, n); }
      MixedEnds(current, hashes);
      ok, states := PublishAll(hashes, publishFails, current);
      MixedAt(current, hashes, |states| - 1);
      assert Values(Stores(worlds)) == states[|states| - 1];
    }

    /** Loads every world's tokens, or fails at the first that has none. */
    method LoadAll(loaded: seq<Loaded>) returns (r: Option<seq<Hashes>>)
      ensures r.Some? <==> AllLoaded(loaded)
      ensures r.Some? ==> r.value == HashesOf(loaded)
    {
      var hashes: seq<Hashes> := [];
      for i := 0 to |loaded|
        invariant |hashes| == i && forall j :: 0 <= j < i ==> loaded[j] == Loaded(hashes[j])
      {
        if !loaded[i].Loaded? { return None; }
        hashes := hashes + [loaded[i].hashes];
      }
      return Some(hashes);
    }
  }

  lemma MixedAt(current: seq<Hashes>, candidates: seq<Hashes>, n: nat)
    requires |current| == |candidates| && n <= |current|
    ensures |Mixed(current, candidates, n)| == |current|
    ensures forall j :: 0 <= j < n ==> Mixed(current, candidates, n)[j] == candidates[j]
    ensures forall j :: n <= j < |current| ==> Mixed(current, candidates, n)[j] == current[j]
  {
  }

  lemma MixedEnds(current: seq<Hashes>, candidates: seq<Hashes>)
    requires |current| == |candidates|
    ensures Mixed(current, candidates, 0) == current && Mixed(current, candidates, |current|) == candidates
  {
  }

  ghost predicate HeldElsewhere(current: seq<Hashes>, j: nat, h: string) {
    exists i :: 0 <= i < |current| && i != j && h in current[i]
  }
}
