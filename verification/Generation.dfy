// Two-slot generation publication: client/generation/generation.go.
//
// Any number of publishers run Publish against one versioned store. The interleaving is a
// state machine: `Next` is one step of one publisher (or of a write still in flight), and
// every choice the network or a crash makes is part of the action.
module Generations {
  import opened Wrappers

  type Path = string
  type Pid = nat

  datatype Slot = NoSlot | SlotA | SlotB

  function InactiveSlot(active: Slot): Slot { if active == SlotA then SlotB else SlotA }

  /** A manifest entry: the shard path and the version whose body it pins. */
  datatype Pin = Pin(path: Path, version: nat)

  /** Who wrote a version, for which slot, over which staged shards. */
  datatype Origin = Origin(writer: Pid, slot: Slot, pins: seq<Pin>)

  /** One immutable stored version; origin is None when it was there from the start. */
  datatype Version = Version(body: string, origin: Option<Origin>)

  type Store = map<Path, seq<Version>>

  datatype Artifact = Artifact(path: Path, body: string)

  /** What one publisher wants to publish. Each of its three functions may refuse: the shards for a
      slot, the manifest over the staged shards, and the slot a manifest's text names (NoSlot for
      a document older than slots). It may insist on the manifest version it replaces. */
  datatype Spec = Spec(shards: Slot -> Option<seq<Artifact>>, manifest: (Slot, seq<Pin>) -> Option<string>,
                       activeSlot: string -> Option<Slot>, expected: Option<nat>)

  const MANIFEST: Path

  /** Where a publisher stands. Stage, Write, Reconcile and Verify are about its current document:
      the next unstaged shard, or the manifest once every shard is staged. */
  datatype Pc = Start | Stage | Write(expected: nat) | Reconcile | Verify(version: nat) | Finished(version: nat) | Failed

  datatype Publisher = Publisher(
    pc: Pc,
    base: nat,            // version of the manifest it read, 0 when there was none
    slot: Slot,
    shards: seq<Artifact>,
    refs: seq<Pin>,
    manifest: string,     // rendered once every shard is staged
    sentManifest: bool)   // its manifest write has been handed to the network
  {
    function Document(): Artifact {
      if |refs| < |shards| then shards[|refs|] else Artifact(MANIFEST, manifest)
    }
  }

  /** A write whose fate its sender no longer knows: it may land later, once, or never. */
  datatype InFlight = InFlight(origin: Origin, doc: Artifact, expected: nat)

  datatype State = State(store: Store, pubs: map<Pid, Publisher>, wire: set<InFlight>)

  /** What happens to one Publish request. */
  datatype Fate =
    | NeverLeft      // a definite failure
    | Answered       // processed, and the response arrives
    | AnswerLost     // processed, but the response is lost
    | Delayed        // still travelling when the client gives up on it

  datatype Action =
    | Read(p: Pid, ok: bool)        // the fetch the publisher's step begins with
    | Send(p: Pid, fate: Fate)
    | Lands(late: InFlight)
    | Stop(p: Pid)

  // ---------- The store ----------

  function Versions(store: Store, path: Path): seq<Version> {
    if path in store then store[path] else []
  }

  predicate Holds(store: Store, path: Path, version: nat, body: string) {
    1 <= version <= |Versions(store, path)| && Versions(store, path)[version - 1].body == body
  }

  /** CAS on the version number; writing the current body again stores nothing. */
  predicate Accepts(store: Store, doc: Artifact, expected: nat) {
    var vs := Versions(store, doc.path);
    |vs| == expected && (expected == 0 || vs[expected - 1].body != doc.body)
  }

  function Put(store: Store, doc: Artifact, expected: nat, origin: Origin): Store {
    if Accepts(store, doc, expected)
    then store[doc.path := Versions(store, doc.path) + [Version(doc.body, Some(origin))]]
    else store
  }

  ghost predicate Grows(a: Store, b: Store) {
    forall path {:trigger Versions(b, path)} :: Versions(a, path) <= Versions(b, path)
  }

  /** The slot that the newest of the manifest's versions names; None when it cannot be told. */
  function Active(spec: Spec, vs: seq<Version>): Option<Slot> {
    if vs == [] then Some(NoSlot) else spec.activeSlot(vs[|vs| - 1].body)
  }

  // ---------- One step ----------

  /** currentManifest, then the shards for the slot the manifest does not name. */
  function ReadManifest(spec: Spec, store: Store, me: Publisher, ok: bool): Publisher {
    var vs := Versions(store, MANIFEST);
    var active := Active(spec, vs);
    if !ok || active.None? || (spec.expected.Some? && spec.expected.value != |vs|) then me.(pc := Failed)
    else
      var slot := InactiveSlot(active.value);
      match spec.shards(slot)
      case None => me.(pc := Failed)
      case Some(shards) => me.(pc := Stage, base := |vs|, slot := slot, shards := shards, refs := [])
  }

  /** stage's fetch: reuse the shard the slot already holds, else write over what is there. */
  function ReadShard(store: Store, me: Publisher, ok: bool): Publisher
    requires |me.refs| < |me.shards|
  {
    var doc := me.Document();
    var current := |Versions(store, doc.path)|;
    if !ok then me.(pc := Failed)
    else if Holds(store, doc.path, current, doc.body) then me.(refs := me.refs + [Pin(doc.path, current)])
    else me.(pc := Write(current))
  }

  /** publishVerified's reconcile: is the head already this exact document? */
  function ReadHead(store: Store, me: Publisher, ok: bool): Publisher {
    var doc := me.Document();
    var current := |Versions(store, doc.path)|;
    if ok && Holds(store, doc.path, current, doc.body) then me.(pc := Verify(current)) else me.(pc := Failed)
  }

  /** publishVerified's read back at the version. */
  function ReadBack(store: Store, me: Publisher, ok: bool, version: nat): Publisher {
    var doc := me.Document();
    if !ok || !Holds(store, doc.path, version, doc.body) then me.(pc := Failed)
    else if |me.refs| < |me.shards| then me.(pc := Stage, refs := me.refs + [Pin(doc.path, version)])
    else me.(pc := Finished(version))
  }

  /** Every shard is staged: the manifest over them. */
  function Render(spec: Spec, me: Publisher): Publisher {
    match spec.manifest(me.slot, me.refs)
    case None => me.(pc := Failed)
    case Some(text) => me.(pc := Write(me.base), manifest := text)
  }

  function DoRead(spec: Spec, store: Store, me: Publisher, ok: bool): Publisher {
    match me.pc
    case Start => ReadManifest(spec, store, me, ok)
    case Stage => if |me.refs| < |me.shards| then ReadShard(store, me, ok) else Render(spec, me)
    case Reconcile => ReadHead(store, me, ok)
    case Verify(version) => ReadBack(store, me, ok, version)
    case _ => me
  }

  function DoSend(s: State, p: Pid, fate: Fate): State
    requires p in s.pubs && s.pubs[p].pc.Write?
  {
    var me := s.pubs[p];
    var doc, expected := me.Document(), me.pc.expected;
    var origin := Origin(p, me.slot, me.refs);
    var sent := me.(sentManifest := me.sentManifest || |me.refs| >= |me.shards|);
    match fate
    case NeverLeft => s.(pubs := s.pubs[p := me.(pc := Failed)])
    case Answered =>
      var pc := if Accepts(s.store, doc, expected) then Verify(expected + 1) else Reconcile;
      State(Put(s.store, doc, expected, origin), s.pubs[p := sent.(pc := pc)], s.wire)
    case AnswerLost =>
      State(Put(s.store, doc, expected, origin), s.pubs[p := sent.(pc := Reconcile)], s.wire)
    case Delayed =>
      State(s.store, s.pubs[p := sent.(pc := Reconcile)], s.wire + {InFlight(origin, doc, expected)})
  }

  function Next(specs: Pid -> Spec, s: State, a: Action): State {
    match a
    case Read(p, ok) =>
      if p in s.pubs then s.(pubs := s.pubs[p := DoRead(specs(p), s.store, s.pubs[p], ok)]) else s
    case Send(p, fate) =>
      if p in s.pubs && s.pubs[p].pc.Write? then DoSend(s, p, fate) else s
    case Lands(late) =>
      if late in s.wire
      then State(Put(s.store, late.doc, late.expected, late.origin), s.pubs, s.wire - {late}) else s
    case Stop(p) =>
      if p in s.pubs && !s.pubs[p].pc.Finished? then s.(pubs := s.pubs[p := s.pubs[p].(pc := Failed)]) else s
  }

  function Execute(specs: Pid -> Spec, s: State, actions: seq<Action>): State
    decreases |actions|
  {
    if actions == [] then s else Execute(specs, Next(specs, s, actions[0]), actions[1..])
  }

  // ---------- What every reachable state keeps ----------

  /** pins are the staged versions of the first |pins| of shards. */
  ghost predicate Staged(store: Store, shards: seq<Artifact>, pins: seq<Pin>) {
    |pins| <= |shards| &&
    forall i :: 0 <= i < |pins| ==>
      pins[i].path == shards[i].path && Holds(store, pins[i].path, pins[i].version, shards[i].body)
  }

  /** body is the manifest of a complete generation, staged in the slot that the manifest it replaces does not name. */
  ghost predicate CompleteGeneration(specs: Pid -> Spec, store: Store, origin: Origin, body: string, replaced: nat) {
    var spec := specs(origin.writer);
    && replaced <= |Versions(store, MANIFEST)|
    && Active(spec, Versions(store, MANIFEST)[..replaced]).Some?
    && origin.slot == InactiveSlot(Active(spec, Versions(store, MANIFEST)[..replaced]).value)
    && spec.shards(origin.slot).Some? && |origin.pins| == |spec.shards(origin.slot).value|
    && Staged(store, spec.shards(origin.slot).value, origin.pins)
    && spec.manifest(origin.slot, origin.pins) == Some(body)
  }

  ghost predicate PublisherInv(specs: Pid -> Spec, store: Store, p: Pid, me: Publisher) {
    me.pc != Start && me.pc != Failed ==>
      && me.base <= |Versions(store, MANIFEST)|
      && Active(specs(p), Versions(store, MANIFEST)[..me.base]).Some?
      && me.slot == InactiveSlot(Active(specs(p), Versions(store, MANIFEST)[..me.base]).value)
      && specs(p).shards(me.slot) == Some(me.shards)
      && Staged(store, me.shards, me.refs)
      && (me.pc != Stage && |me.refs| >= |me.shards| ==> specs(p).manifest(me.slot, me.refs) == Some(me.manifest))
      && (me.pc.Write? && |me.refs| >= |me.shards| ==> me.pc.expected == me.base)
      && (me.pc.Finished? ==> |me.refs| == |me.shards| && Holds(store, MANIFEST, me.pc.version, me.manifest))
  }

  ghost predicate CommittedInv(specs: Pid -> Spec, store: Store) {
    forall k :: 0 <= k < |Versions(store, MANIFEST)| && Versions(store, MANIFEST)[k].origin.Some? ==>
      CompleteGeneration(specs, store, Versions(store, MANIFEST)[k].origin.value, Versions(store, MANIFEST)[k].body, k)
  }

  ghost predicate WireInv(specs: Pid -> Spec, s: State) {
    forall w <- s.wire :: w.origin.writer in s.pubs && (w.doc.path == MANIFEST ==>
      s.pubs[w.origin.writer].sentManifest && CompleteGeneration(specs, s.store, w.origin, w.doc.body, w.expected))
  }

  predicate By(v: Version, p: Pid) { v.origin.Some? && v.origin.value.writer == p }

  /** The versions of the manifest p wrote. */
  ghost function CommitsBy(vs: seq<Version>, p: Pid): nat {
    if vs == [] then 0 else CommitsBy(vs[..|vs| - 1], p) + (if By(vs[|vs| - 1], p) then 1 else 0)
  }

  ghost function ManifestsOnWire(wire: set<InFlight>, p: Pid): set<InFlight> {
    set w | w in wire && w.origin.writer == p && w.doc.path == MANIFEST
  }

  /** Nobody's manifest write is ever sent twice, so it commits at most one version. */
  ghost predicate OnceInv(s: State) {
    forall p <- s.pubs ::
      CommitsBy(Versions(s.store, MANIFEST), p) + |ManifestsOnWire(s.wire, p)| <= if s.pubs[p].sentManifest then 1 else 0
  }

  /** Past its manifest write: nothing left to send. */
  predicate Settling(me: Publisher) {
    me.pc.Failed? || ((me.pc.Reconcile? || me.pc.Verify? || me.pc.Finished?) && |me.refs| >= |me.shards|)
  }

  ghost predicate SentInv(s: State) {
    forall p <- s.pubs :: s.pubs[p].sentManifest ==> Settling(s.pubs[p])
  }

  ghost predicate Inv(specs: Pid -> Spec, s: State) {
    && CommittedInv(specs, s.store)
    && (forall p <- s.pubs :: PublisherInv(specs, s.store, p, s.pubs[p]))
    && WireInv(specs, s)
    && OnceInv(s) && SentInv(s)
  }

  /** Shards never live at the manifest's own path. */
  ghost predicate Separate(specs: Pid -> Spec) {
    forall p, slot, k :: specs(p).shards(slot).Some? && 0 <= k < |specs(p).shards(slot).value| ==>
      specs(p).shards(slot).value[k].path != MANIFEST
  }

  // ---------- Stored versions are forever ----------

  lemma PutGrows(store: Store, doc: Artifact, expected: nat, origin: Origin)
    ensures Grows(store, Put(store, doc, expected, origin))
  {
  }

  lemma PublisherGrows(specs: Pid -> Spec, a: Store, b: Store, p: Pid, me: Publisher)
    requires Grows(a, b) && PublisherInv(specs, a, p, me)
    ensures PublisherInv(specs, b, p, me)
  {
    if me.pc != Start && me.pc != Failed {
      assert Versions(b, MANIFEST)[..me.base] == Versions(a, MANIFEST)[..me.base];
      assert Versions(a, MANIFEST) <= Versions(b, MANIFEST);
    }
  }

  lemma CommittedPut(specs: Pid -> Spec, store: Store, doc: Artifact, expected: nat, origin: Origin)
    requires CommittedInv(specs, store)
    requires doc.path == MANIFEST ==> CompleteGeneration(specs, store, origin, doc.body, expected)
    ensures CommittedInv(specs, Put(store, doc, expected, origin))
  {
    var now := Put(store, doc, expected, origin);
    var was, vs := Versions(store, MANIFEST), Versions(now, MANIFEST);
    PutGrows(store, doc, expected, origin);
    forall k | 0 <= k < |vs| && vs[k].origin.Some?
      ensures CompleteGeneration(specs, now, vs[k].origin.value, vs[k].body, k)
    {
      if k < |was| {
        assert vs[k] == was[k];
        StillComplete(specs, store, now, vs[k].origin.value, vs[k].body, k);
      } else {
        StillComplete(specs, store, now, origin, doc.body, expected);
      }
    }
  }

  lemma StillComplete(specs: Pid -> Spec, a: Store, b: Store, origin: Origin, body: string, replaced: nat)
    requires Grows(a, b) && CompleteGeneration(specs, a, origin, body, replaced)
    ensures CompleteGeneration(specs, b, origin, body, replaced)
  {
    assert Versions(a, MANIFEST) <= Versions(b, MANIFEST);
    assert Versions(b, MANIFEST)[..replaced] == Versions(a, MANIFEST)[..replaced];
  }

  // ---------- Each step keeps the invariant ----------

  lemma ManifestLearned(specs: Pid -> Spec, store: Store, p: Pid, me: Publisher, ok: bool)
    ensures PublisherInv(specs, store, p, ReadManifest(specs(p), store, me, ok))
  {
    hide Active;
    hide Versions;
    hide Holds;
    assert Versions(store, MANIFEST)[..|Versions(store, MANIFEST)|] == Versions(store, MANIFEST);
  }

  lemma ShardLearned(specs: Pid -> Spec, store: Store, p: Pid, me: Publisher, ok: bool)
    requires PublisherInv(specs, store, p, me) && me.pc == Stage && |me.refs| < |me.shards|
    ensures PublisherInv(specs, store, p, ReadShard(store, me, ok))
  {
    hide Active;
    hide Versions;
  }

  /** What a publisher learns from a fetch. */
  lemma ReadLearns(specs: Pid -> Spec, store: Store, p: Pid, me: Publisher, ok: bool)
    requires PublisherInv(specs, store, p, me)
    ensures PublisherInv(specs, store, p, DoRead(specs(p), store, me, ok))
  {
    hide Active;
    hide Versions;
    hide ReadManifest;
    hide ReadShard;
    match me.pc
    case Start => ManifestLearned(specs, store, p, me, ok);
    case Stage => if |me.refs| < |me.shards| { ShardLearned(specs, store, p, me, ok); }
    case _ =>
  }

  lemma ReadSettles(spec: Spec, store: Store, me: Publisher, ok: bool)
    ensures var after := DoRead(spec, store, me, ok);
      after.sentManifest == me.sentManifest && (Settling(me) ==> Settling(after))
  {
    hide Active;
    hide Holds;
  }

  /** A step that writes nothing changes one publisher. */
  lemma ReadKeeps(specs: Pid -> Spec, s: State, p: Pid, ok: bool)
    requires Inv(specs, s) && p in s.pubs
    ensures Inv(specs, Next(specs, s, Read(p, ok)))
  {
    hide PublisherInv;
    hide DoRead;
    hide Settling;
    ReadLearns(specs, s.store, p, s.pubs[p], ok);
    ReadSettles(specs(p), s.store, s.pubs[p], ok);
    ReplaceKeeps(specs, s, p, DoRead(specs(p), s.store, s.pubs[p], ok));
  }

  lemma ReplaceKeeps(specs: Pid -> Spec, s: State, p: Pid, after: Publisher)
    requires Inv(specs, s) && p in s.pubs && after.sentManifest == s.pubs[p].sentManifest
    requires PublisherInv(specs, s.store, p, after)
    requires after.sentManifest ==> Settling(after)
    ensures Inv(specs, s.(pubs := s.pubs[p := after]))
  {
  }

  lemma CommitsPut(store: Store, doc: Artifact, expected: nat, origin: Origin, p: Pid)
    ensures CommitsBy(Versions(Put(store, doc, expected, origin), MANIFEST), p) ==
      CommitsBy(Versions(store, MANIFEST), p)
      + if doc.path == MANIFEST && Accepts(store, doc, expected) && origin.writer == p then 1 else 0
  {
    var vs := Versions(store, MANIFEST);
    if doc.path == MANIFEST && Accepts(store, doc, expected) {
      var all := vs + [Version(doc.body, Some(origin))];
      assert all[..|all| - 1] == vs;
    }
  }

  /** A write reaches the store, at once or late. */
  lemma PutKeeps(specs: Pid -> Spec, s: State, doc: Artifact, expected: nat, origin: Origin)
    requires Inv(specs, s) && origin.writer in s.pubs
    requires doc.path == MANIFEST ==> CompleteGeneration(specs, s.store, origin, doc.body, expected)
    ensures var now := Put(s.store, doc, expected, origin);
      && CommittedInv(specs, now)
      && (forall q <- s.pubs :: PublisherInv(specs, now, q, s.pubs[q]))
      && WireInv(specs, s.(store := now))
  {
    var now := Put(s.store, doc, expected, origin);
    PutGrows(s.store, doc, expected, origin);
    CommittedPut(specs, s.store, doc, expected, origin);
    forall q <- s.pubs ensures PublisherInv(specs, now, q, s.pubs[q]) {
      PublisherGrows(specs, s.store, now, q, s.pubs[q]);
    }
    forall w <- s.wire | w.doc.path == MANIFEST
      ensures CompleteGeneration(specs, now, w.origin, w.doc.body, w.expected)
    {
      StillComplete(specs, s.store, now, w.origin, w.doc.body, w.expected);
    }
  }

  lemma OwnDocument(specs: Pid -> Spec, s: State, p: Pid)
    requires Inv(specs, s) && Separate(specs) && p in s.pubs && s.pubs[p].pc.Write?
    ensures var me := s.pubs[p];
      && !me.sentManifest && |me.refs| <= |me.shards|
      && (me.Document().path == MANIFEST <==> |me.refs| >= |me.shards|)
      && (me.Document().path == MANIFEST ==>
            CompleteGeneration(specs, s.store, Origin(p, me.slot, me.refs), me.Document().body, me.pc.expected))
  {
    var me := s.pubs[p];
    assert PublisherInv(specs, s.store, p, me);
    if |me.refs| < |me.shards| { assert specs(p).shards(me.slot).value[|me.refs|].path != MANIFEST; }
  }

  lemma WireUnchanged(wire: set<InFlight>, late: InFlight, p: Pid)
    ensures late !in wire && late.origin.writer == p && late.doc.path == MANIFEST ==>
      ManifestsOnWire(wire + {late}, p) == ManifestsOnWire(wire, p) + {late}
    ensures late.origin.writer != p || late.doc.path != MANIFEST ==>
      ManifestsOnWire(wire + {late}, p) == ManifestsOnWire(wire, p) == ManifestsOnWire(wire - {late}, p)
    ensures late in wire && late.origin.writer == p && late.doc.path == MANIFEST ==>
      late in ManifestsOnWire(wire, p) && ManifestsOnWire(wire - {late}, p) == ManifestsOnWire(wire, p) - {late}
  {
  }

  /** Whatever becomes of a request, it adds at most one commit to its sender. */
  lemma SendOnce(specs: Pid -> Spec, s: State, p: Pid, fate: Fate)
    requires Inv(specs, s) && p in s.pubs && s.pubs[p].pc.Write? && !fate.NeverLeft?
    requires !s.pubs[p].sentManifest && (s.pubs[p].Document().path == MANIFEST <==> |s.pubs[p].refs| >= |s.pubs[p].shards|)
    ensures OnceInv(DoSend(s, p, fate))
  {
    hide CommittedInv;
    hide PublisherInv;
    hide WireInv;
    hide SentInv;
    hide CommitsBy;
    hide ManifestsOnWire;
    var me, r := s.pubs[p], DoSend(s, p, fate);
    var doc, expected := me.Document(), me.pc.expected;
    var late := InFlight(Origin(p, me.slot, me.refs), doc, expected);
    forall q <- s.pubs
      ensures CommitsBy(Versions(r.store, MANIFEST), q) + |ManifestsOnWire(r.wire, q)|
              <= if r.pubs[q].sentManifest then 1 else 0
    {
      CommitsPut(s.store, doc, expected, late.origin, q);
      WireUnchanged(s.wire, late, q);
      if late in s.wire { assert s.wire + {late} == s.wire; }
    }
  }

  /** Sending leaves a publisher waiting for the outcome. */
  lemma SenderWaits(specs: Pid -> Spec, store: Store, p: Pid, me: Publisher, pc: Pc, sent: bool)
    requires PublisherInv(specs, store, p, me) && me.pc.Write? && (pc.Reconcile? || pc.Verify?)
    ensures PublisherInv(specs, store, p, me.(sentManifest := sent, pc := pc))
  {
    hide Staged;
    hide Active;
    hide Versions;
  }

  lemma SendKeeps(specs: Pid -> Spec, s: State, p: Pid, fate: Fate)
    requires Inv(specs, s) && Separate(specs) && p in s.pubs && s.pubs[p].pc.Write?
    ensures Inv(specs, DoSend(s, p, fate))
  {
    hide CompleteGeneration;
    hide Staged;
    hide OnceInv;
    var me := s.pubs[p];
    OwnDocument(specs, s, p);
    if fate.NeverLeft? {
      ReplaceKeeps(specs, s, p, me.(pc := Failed));
    } else {
      var doc, sent := me.Document(), me.sentManifest || |me.refs| >= |me.shards|;
      PutKeeps(specs, s, doc, me.pc.expected, Origin(p, me.slot, me.refs));
      var now := Put(s.store, doc, me.pc.expected, Origin(p, me.slot, me.refs));
      SenderWaits(specs, now, p, me, Reconcile, sent);
      SenderWaits(specs, now, p, me, Verify(me.pc.expected + 1), sent);
      SenderWaits(specs, s.store, p, me, Reconcile, sent);
      hide PublisherInv;
      hide Accepts;
      SendOnce(specs, s, p, fate);
    }
  }

  lemma LandsKeeps(specs: Pid -> Spec, s: State, late: InFlight)
    requires Inv(specs, s) && late in s.wire
    ensures Inv(specs, Next(specs, s, Lands(late)))
  {
    var r := Next(specs, s, Lands(late));
    PutKeeps(specs, s, late.doc, late.expected, late.origin);
    forall q <- s.pubs
      ensures CommitsBy(Versions(r.store, MANIFEST), q) + |ManifestsOnWire(r.wire, q)|
              <= if r.pubs[q].sentManifest then 1 else 0
    {
      CommitsPut(s.store, late.doc, late.expected, late.origin, q);
      WireUnchanged(s.wire, late, q);
    }
  }

  lemma NextKeeps(specs: Pid -> Spec, s: State, a: Action)
    requires Inv(specs, s) && Separate(specs)
    ensures Inv(specs, Next(specs, s, a)) && Grows(s.store, Next(specs, s, a).store)
  {
    match a
    case Read(p, ok) => if p in s.pubs { ReadKeeps(specs, s, p, ok); }
    case Send(p, fate) =>
      if p in s.pubs && s.pubs[p].pc.Write? {
        SendKeeps(specs, s, p, fate);
        PutGrows(s.store, s.pubs[p].Document(), s.pubs[p].pc.expected, Origin(p, s.pubs[p].slot, s.pubs[p].refs));
      }
    case Lands(late) =>
      if late in s.wire {
        LandsKeeps(specs, s, late);
        PutGrows(s.store, late.doc, late.expected, late.origin);
      }
    case Stop(p) =>
      if p in s.pubs && !s.pubs[p].pc.Finished? { ReplaceKeeps(specs, s, p, s.pubs[p].(pc := Failed)); }
  }

  /** Publishers that have done nothing yet, over a store none of them has written. */
  ghost predicate Initial(s: State) {
    && s.wire == {}
    && (forall p <- s.pubs :: s.pubs[p].pc == Start && !s.pubs[p].sentManifest)
    && (forall k :: 0 <= k < |Versions(s.store, MANIFEST)| ==> Versions(s.store, MANIFEST)[k].origin.None?)
  }

  lemma {:induction false} NoCommits(vs: seq<Version>, p: Pid)
    requires forall k :: 0 <= k < |vs| ==> vs[k].origin.None?
    ensures CommitsBy(vs, p) == 0
  {
    if vs != [] { NoCommits(vs[..|vs| - 1], p); }
  }

  lemma InitialInv(specs: Pid -> Spec, s: State)
    requires Initial(s)
    ensures Inv(specs, s)
  {
    forall p <- s.pubs ensures CommitsBy(Versions(s.store, MANIFEST), p) + |ManifestsOnWire(s.wire, p)| == 0 {
      NoCommits(Versions(s.store, MANIFEST), p);
      assert ManifestsOnWire(s.wire, p) == {};
    }
  }

  lemma {:induction false} ExecuteKeeps(specs: Pid -> Spec, s: State, actions: seq<Action>)
    requires Inv(specs, s) && Separate(specs)
    ensures Inv(specs, Execute(specs, s, actions)) && Grows(s.store, Execute(specs, s, actions).store)
    decreases |actions|
  {
    if actions != [] {
      var mid := Next(specs, s, actions[0]);
      NextKeeps(specs, s, actions[0]);
      ExecuteKeeps(specs, mid, actions[1..]);
    }
  }

  // ---------- What publishers and readers may rely on ----------

  /** Whatever the interleaving, losses and crashes, every manifest a publisher committed is the text
      it rendered over exactly its own generation's shards, in order, pinned at versions that store
      the staged bodies, in the slot that the manifest just below it does not name. */
  lemma EveryManifestPinsItsGeneration(specs: Pid -> Spec, s: State, actions: seq<Action>, k: nat)
    requires Initial(s) && Separate(specs)
    requires var vs := Versions(Execute(specs, s, actions).store, MANIFEST); k < |vs| && vs[k].origin.Some?
    ensures var store := Execute(specs, s, actions).store;
      var v := Versions(store, MANIFEST)[k];
      CompleteGeneration(specs, store, v.origin.value, v.body, k)
  {
    InitialInv(specs, s);
    ExecuteKeeps(specs, s, actions);
  }

  /** A reader takes a manifest at one moment and follows its pins at later ones: it gets one
      publisher's complete generation, whatever else was written in between. */
  lemma ReaderSeesOneGeneration(specs: Pid -> Spec, s: State, before: seq<Action>, after: seq<Action>, k: nat)
    requires Initial(s) && Separate(specs)
    requires var vs := Versions(Execute(specs, s, before).store, MANIFEST); k < |vs| && vs[k].origin.Some?
    ensures var early := Execute(specs, s, before);
      var v := Versions(early.store, MANIFEST)[k];
      var origin, spec := v.origin.value, specs(v.origin.value.writer);
      && spec.manifest(origin.slot, origin.pins) == Some(v.body)
      && spec.shards(origin.slot).Some?
      && var shards := spec.shards(origin.slot).value;
      && |origin.pins| == |shards|
      && forall i :: 0 <= i < |shards| ==>
           origin.pins[i].path == shards[i].path &&
           Holds(Execute(specs, early, after).store, origin.pins[i].path, origin.pins[i].version, shards[i].body)
  {
    var early := Execute(specs, s, before);
    EveryManifestPinsItsGeneration(specs, s, before, k);
    InitialInv(specs, s);
    ExecuteKeeps(specs, s, before);
    ExecuteKeeps(specs, early, after);
  }

  /** A publisher that succeeds has its own complete manifest stored at the version it reports. */
  lemma SuccessMeansCommitted(specs: Pid -> Spec, s: State, actions: seq<Action>, p: Pid)
    requires Initial(s) && Separate(specs) && p in Execute(specs, s, actions).pubs
    requires Execute(specs, s, actions).pubs[p].pc.Finished?
    ensures var r := Execute(specs, s, actions);
      var me := r.pubs[p];
      && specs(p).manifest(me.slot, me.refs) == Some(me.manifest) && Holds(r.store, MANIFEST, me.pc.version, me.manifest)
      && specs(p).shards(me.slot).Some? && |me.refs| == |specs(p).shards(me.slot).value|
      && Staged(r.store, specs(p).shards(me.slot).value, me.refs)
  {
    InitialInv(specs, s);
    ExecuteKeeps(specs, s, actions);
  }

  /** A publisher that fails before its manifest write never changes the manifest, then or later. */
  lemma EarlyFailureLeavesManifest(specs: Pid -> Spec, s: State, before: seq<Action>, after: seq<Action>, p: Pid)
    requires Initial(s) && Separate(specs) && p in Execute(specs, s, before).pubs
    requires Execute(specs, s, before).pubs[p].pc.Failed? && !Execute(specs, s, before).pubs[p].sentManifest
    ensures CommitsBy(Versions(Execute(specs, Execute(specs, s, before), after).store, MANIFEST), p) == 0
  {
    var early := Execute(specs, s, before);
    InitialInv(specs, s);
    ExecuteKeeps(specs, s, before);
    ExecuteKeeps(specs, early, after);
    FailedStays(specs, early, after, p);
  }

  lemma {:induction false} FailedStays(specs: Pid -> Spec, s: State, actions: seq<Action>, p: Pid)
    requires p in s.pubs && s.pubs[p].pc.Failed? && !s.pubs[p].sentManifest
    ensures var r := Execute(specs, s, actions); p in r.pubs && r.pubs[p].pc.Failed? && !r.pubs[p].sentManifest
    decreases |actions|
  {
    if actions != [] { FailedStays(specs, Next(specs, s, actions[0]), actions[1..], p); }
  }

  /** Lost responses are settled by content and never resent: at most one manifest version each. */
  lemma OneManifestPerPublisher(specs: Pid -> Spec, s: State, actions: seq<Action>, p: Pid)
    requires Initial(s) && Separate(specs) && p in Execute(specs, s, actions).pubs
    ensures CommitsBy(Versions(Execute(specs, s, actions).store, MANIFEST), p) <= 1
  {
    InitialInv(specs, s);
    ExecuteKeeps(specs, s, actions);
  }
}
