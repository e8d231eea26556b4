// Publishing a sharded index: client/index/publish.go over client/generation/generation.go.
//
// The generations that publishers race to commit are the index's own: BuildShards' shards under
// the manifest's path. A reader of any committed manifest finds one publisher's entries.
module Publications {
  import opened Wrappers
  import opened Text
  import opened Paths
  import opened Index
  import opened Sha256
  import opened Sharding
  import opened Manifests
  import G = Generations

  /** What one publisher is asked to publish. */
  datatype Publication = Publication(source: string, indexed: Moment, entries: seq<Entry>, target: int)

  function SlotName(slot: G.Slot): string { if slot.SlotB? then "b" else "a" }

  /** The shards as generation.Publish stages them. */
  function Payload(arts: seq<ShardArtifact>): (r: seq<G.Artifact>)
    ensures |r| == |arts|
  {
    seq(|arts|, k requires 0 <= k < |arts| => G.Artifact(arts[k].path, arts[k].body))
  }

  function PinnedVersions(pins: seq<G.Pin>): (r: seq<nat>)
    ensures |r| == |pins|
  {
    seq(|pins|, k requires 0 <= k < |pins| => pins[k].version)
  }

  /** The manifest of a generation; its time is taken to UTC first. */
  function GenerationManifest(pub: Publication, slot: G.Slot, arts: seq<ShardArtifact>, pins: seq<G.Pin>): Manifest
    requires |pins| == |arts|
  {
    ManifestOf(pub.source, AsUtc(pub.indexed), |pub.entries|, SlotName(slot), arts, PinnedVersions(pins))
  }

  /** The slot that the document at the manifest's path names; NoSlot for a legacy index. */
  function ActiveSlot(text: string): Option<G.Slot> {
    match DocumentFormat(text)
    case Err(_) => None
    case Ok(format) =>
      if format == "" then Some(G.NoSlot)
      else if format != MANIFEST_FORMAT then None
      else match OpenManifest(G.MANIFEST, text)
        case Err(_) => None
        case Ok(m) => Some(if m.activeSlot == "a" then G.SlotA else G.SlotB)
  }

  /** What p hands to generation.Publish: the shards that BuildShards gave for a slot, or its
      refusal, and BuildManifest's text over them, or its refusal. */
  ghost predicate Publishes(spec: G.Spec, pub: Publication, slot: G.Slot, built: Option<seq<ShardArtifact>>, chunks: seq<seq<Entry>>) {
    match built
    case None => spec.shards(slot) == None
    case Some(arts) =>
      && spec.shards(slot) == Some(Payload(arts))
      && Buildable(G.MANIFEST, SlotName(slot), |pub.entries|, pub.target)
      && IsSharding(arts, chunks, G.MANIFEST, SlotName(slot), EffectiveTarget(pub.target), SortEntries(pub.entries))
      && forall pins: seq<G.Pin> :: |pins| == |arts| ==>
           spec.manifest(slot, pins) == (match Built(G.MANIFEST, GenerationManifest(pub, slot, arts, pins))
                                         case Err(_) => None
                                         case Ok(text) => Some(text))
  }

  /** Every publisher publishes an index under the one manifest path. */
  ghost predicate PublishesIndex(specs: G.Pid -> G.Spec, pubs: G.Pid -> Publication,
                                 built: (G.Pid, G.Slot) -> Option<seq<ShardArtifact>>, chunks: (G.Pid, G.Slot) -> seq<seq<Entry>>) {
    && (forall p, slot :: Publishes(specs(p), pubs(p), slot, built(p, slot), chunks(p, slot)))
    && (forall p, text :: specs(p).activeSlot(text) == ActiveSlot(text))
  }

  /** A shard path is longer than its manifest's path. */
  lemma ShardPathApart(manifestPath: string, slot: string, prefix: string, part: nat)
    ensures ShardPath(manifestPath, slot, prefix, part) != manifestPath
  {
    hide ShardFile;
    assert |ShardRoot(manifestPath)| > |manifestPath|;
  }

  /** No shard of an index is published at the manifest's own path. */
  lemma IndexSeparate(specs: G.Pid -> G.Spec, pubs: G.Pid -> Publication,
                      built: (G.Pid, G.Slot) -> Option<seq<ShardArtifact>>, chunks: (G.Pid, G.Slot) -> seq<seq<Entry>>)
    requires PublishesIndex(specs, pubs, built, chunks)
    ensures G.Separate(specs)
  {
    hide ShardPath;
    hide SortEntries;
    hide ValidManifestPath;
    hide IsSharding;
    hide Built;
    hide ActiveSlot;
    forall p, slot, k | specs(p).shards(slot).Some? && 0 <= k < |specs(p).shards(slot).value|
      ensures specs(p).shards(slot).value[k].path != G.MANIFEST
    {
      assert Publishes(specs(p), pubs(p), slot, built(p, slot), chunks(p, slot));
      var arts := built(p, slot).value;
      ShardsAre(arts, chunks(p, slot), G.MANIFEST, SlotName(slot), EffectiveTarget(pubs(p).target), SortEntries(pubs(p).entries));
      ShardPathApart(G.MANIFEST, SlotName(slot), arts[k].prefix, arts[k].part);
    }
  }

  /** fetch answers a versioned path with what the store holds there. */
  ghost predicate Serves(fetch: Fetch, store: G.Store) {
    forall path, version, body :: G.Holds(store, path, version, body) ==>
      fetch(VersionPath(path, version)) == Ok(Response("ok", Itoa(version), ContentHash(body), body))
  }

  /** Shards held at the versions that a manifest pins are published at those versions. */
  lemma PinsArePublished(store: G.Store, arts: seq<ShardArtifact>, pins: seq<G.Pin>, fetch: Fetch)
    requires |pins| == |arts| && Serves(fetch, store)
    requires forall path :: |G.Versions(store, path)| <= MAX_INT
    requires forall i :: 0 <= i < |arts| ==>
      pins[i].path == arts[i].path && G.Holds(store, pins[i].path, pins[i].version, arts[i].body)
    ensures Published(arts, PinnedVersions(pins), fetch)
  {
    var versions := PinnedVersions(pins);
    forall k | 0 <= k < |arts| ensures 1 <= versions[k] <= MAX_INT {
      assert G.Holds(store, pins[k].path, pins[k].version, arts[k].body);
      assert |G.Versions(store, pins[k].path)| <= MAX_INT;
    }
  }

  /** A rendered manifest is BuildManifest's, over shards that BuildShards gave. */
  lemma Rendered(specs: G.Pid -> G.Spec, pubs: G.Pid -> Publication,
                 built: (G.Pid, G.Slot) -> Option<seq<ShardArtifact>>, chunks: (G.Pid, G.Slot) -> seq<seq<Entry>>,
                 p: G.Pid, slot: G.Slot, pins: seq<G.Pin>, body: string)
    requires PublishesIndex(specs, pubs, built, chunks)
    requires specs(p).shards(slot).Some? && |pins| == |specs(p).shards(slot).value| && specs(p).manifest(slot, pins) == Some(body)
    ensures built(p, slot).Some? && specs(p).shards(slot).value == Payload(built(p, slot).value)
    ensures Built(G.MANIFEST, GenerationManifest(pubs(p), slot, built(p, slot).value, pins)) == Ok(body)
    ensures Publishes(specs(p), pubs(p), slot, built(p, slot), chunks(p, slot))
  {
    hide Built;
    hide IsSharding;
    hide SortEntries;
    hide ActiveSlot;
    hide Buildable;
  }

  /**
   * Publishers race, crash, lose responses and refuse, in any order. A reader that takes the text of
   * any manifest one of them committed, and follows its pins at any later time, finds for every hash
   * exactly that publisher's entries with the hash, and loading gives that publisher's sorted
   * list; only a manifest dated within the first second of year 1 is refused.
   */
  lemma CommittedIndexAnswers(specs: G.Pid -> G.Spec, pubs: G.Pid -> Publication,
                              built: (G.Pid, G.Slot) -> Option<seq<ShardArtifact>>, chunks: (G.Pid, G.Slot) -> seq<seq<Entry>>,
                              s: G.State, before: seq<G.Action>, after: seq<G.Action>, k: nat, fetch: Fetch, hash: string)
    requires G.Initial(s) && PublishesIndex(specs, pubs, built, chunks)
    requires var vs := G.Versions(G.Execute(specs, s, before).store, G.MANIFEST); k < |vs| && vs[k].origin.Some?
    requires Serves(fetch, G.Execute(specs, G.Execute(specs, s, before), after).store)
    requires forall path :: |G.Versions(G.Execute(specs, G.Execute(specs, s, before), after).store, path)| <= MAX_INT
    requires HashPath(hash) == Some(hash) && |hash| == 71
    ensures var v := G.Versions(G.Execute(specs, s, before).store, G.MANIFEST)[k];
      var pub := pubs(v.origin.value.writer);
      if Whole(pub.indexed.utc) != ZERO_TIME then
        && Lookup(G.MANIFEST, v.body, hash, fetch) == Ok(Matching(SortEntries(pub.entries), hash))
        && Load(G.MANIFEST, v.body, fetch) == Ok(SortEntries(pub.entries))
      else Lookup(G.MANIFEST, v.body, hash, fetch).Err? && Load(G.MANIFEST, v.body, fetch).Err?
  {
    hide IsSharding;
    hide SortEntries;
    hide HashPath;
    hide Built;
    hide Lookup;
    hide Load;
    hide G.Initial;
    hide G.Execute;
    hide Buildable;
    hide PublishesIndex;
    var now := G.Execute(specs, G.Execute(specs, s, before), after).store;
    var v := G.Versions(G.Execute(specs, s, before).store, G.MANIFEST)[k];
    IndexSeparate(specs, pubs, built, chunks);
    G.ReaderSeesOneGeneration(specs, s, before, after, k);
    var p, slot, pins := v.origin.value.writer, v.origin.value.slot, v.origin.value.pins;
    Rendered(specs, pubs, built, chunks, p, slot, pins, v.body);
    var pub, arts := pubs(p), built(p, slot).value;
    PinsArePublished(now, arts, pins, fetch);
    PrintedInRange(pub, slot, arts, pins);
    IndexAgreesWithScan(G.MANIFEST, SlotName(slot), pub.entries, pub.target, arts, chunks(p, slot), PinnedVersions(pins), fetch,
                        pub.source, AsUtc(pub.indexed), hash);
  }

  /** A time that is taken to UTC before it is checked is printed with a year that reads back. */
  lemma PrintedInRange(pub: Publication, slot: G.Slot, arts: seq<ShardArtifact>, pins: seq<G.Pin>)
    requires |pins| == |arts| && Built(G.MANIFEST, GenerationManifest(pub, slot, arts, pins)).Ok?
    ensures ReadsBack(AsUtc(pub.indexed)) <==> Whole(pub.indexed.utc) != ZERO_TIME
  {
    hide ValidManifestPath;
    hide ValidShards;
    hide ValidSource;
    hide ManifestText;
    hide Len;
    hide OwnYear;
    UtcYear(pub.indexed.utc);
  }

  /**
   * Of two manifests that publishers committed one on the other, the upper names the slot that the
   * lower does not, and the lower reads back: nobody publishes over a manifest that does not.
   */
  lemma SlotsAlternate(specs: G.Pid -> G.Spec, pubs: G.Pid -> Publication,
                       built: (G.Pid, G.Slot) -> Option<seq<ShardArtifact>>, chunks: (G.Pid, G.Slot) -> seq<seq<Entry>>,
                       s: G.State, actions: seq<G.Action>, k: nat)
    requires G.Initial(s) && PublishesIndex(specs, pubs, built, chunks)
    requires var vs := G.Versions(G.Execute(specs, s, actions).store, G.MANIFEST);
      k + 1 < |vs| && vs[k].origin.Some? && vs[k + 1].origin.Some?
    ensures var vs := G.Versions(G.Execute(specs, s, actions).store, G.MANIFEST);
      var lower, upper := vs[k].origin.value, vs[k + 1].origin.value;
      && ActiveSlot(vs[k].body) == Some(lower.slot) && lower.slot != upper.slot
      && Whole(pubs(lower.writer).indexed.utc) != ZERO_TIME
  {
    hide G.Initial;
    hide G.Execute;
    hide IsSharding;
    hide Buildable;
    hide Built;
    hide DocumentFormat;
    hide ParseManifest;
    hide PublishesIndex;
    var store := G.Execute(specs, s, actions).store;
    var vs := G.Versions(store, G.MANIFEST);
    var lower, upper := vs[k].origin.value, vs[k + 1].origin.value;
    IndexSeparate(specs, pubs, built, chunks);
    G.EveryManifestPinsItsGeneration(specs, s, actions, k);
    G.EveryManifestPinsItsGeneration(specs, s, actions, k + 1);
    assert vs[..k + 1][k] == vs[k];
    SlotRead(specs, pubs, built, chunks, upper.writer, vs[k].body);
    Rendered(specs, pubs, built, chunks, lower.writer, lower.slot, lower.pins, vs[k].body);
    var m := GenerationManifest(pubs(lower.writer), lower.slot, built(lower.writer, lower.slot).value, lower.pins);
    ManifestRoundTrip(G.MANIFEST, m);
  }

  lemma SlotRead(specs: G.Pid -> G.Spec, pubs: G.Pid -> Publication,
                 built: (G.Pid, G.Slot) -> Option<seq<ShardArtifact>>, chunks: (G.Pid, G.Slot) -> seq<seq<Entry>>,
                 p: G.Pid, text: string)
    requires PublishesIndex(specs, pubs, built, chunks)
    ensures specs(p).activeSlot(text) == ActiveSlot(text)
  {
    hide ActiveSlot;
    hide Publishes;
  }
}
