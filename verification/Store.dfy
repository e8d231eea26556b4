// One document of the file store: protocol/store/store.go.
//
// Version files v1, v2, … each hash the one below them; a symbolic link names the current one.
// Writes, appends, archive changes and retention prunes run one at a time while any disk
// step may fail. Removing a half-made file always succeeds.
module Store {
  import opened Wrappers
  import opened Text
  import opened Sha256
  import opened StoreFmt

  type Versions = map<nat, string>

  datatype Swap = Applied | AppliedUnsynced | NotApplied

  /** Which disk steps of one operation fail, and what the directory listings show. */
  datatype Faults = Faults(
    firstListing: bool,   // ReadDir before the expected-version check
    mkdir: bool,          // creating or syncing the versions directory
    stat: bool,           // Stat of the current link
    listing: bool,        // ReadDir for the next version number
    archiveRead: bool,    // the archive state of an existing document
    prevRead: bool,       // the previous version's bytes
    prevStat: bool,       // its modification time
    prevHash: bool,       // the previous version's bytes again, for the hash link
    refused: bool,        // the caller's write check
    create: bool,         // creating the new version file
    write: bool,          // writing, syncing or closing it
    swap: Swap,           // renaming the link over
    statAfter: bool,      // Stat of the new version once it is current
    pruneOpen: bool,      // opening the store root to prune
    unseen: set<nat>,     // versions whose directory entry cannot be examined while pruning
    stuck: set<nat>,      // versions whose removal fails
    recheck: bool,        // ReadDir after losing the create
    get: bool,            // reading the base version of an append
    sidecar: bool,        // Stat of the archive file when the state is already the wanted one
    sidecarSync: bool)    // syncing its directory then
  {
    /** No step that a new version depends on fails. */
    predicate Works() {
      !mkdir && !stat && !archiveRead && !prevRead && !prevStat && !prevHash && !refused && !create && !write &&
      !swap.NotApplied?
    }
  }

  const NO_FAULTS := Faults(false, false, false, false, false, false, false, false, false, false, false, Applied, false,
                            false, {}, {}, false, false, false, false)

  datatype PruneResult = PruneResult(from: nat, to: nat, failed: bool)

  datatype Outcome =
    | Failed(reason: string)
    | Archived
    | NotModified(version: nat)
    | Conflict(version: nat)
    | VersionExists
    | StatFailed(version: nat)
    | Committed(version: nat, synced: bool, stale: bool, prune: Option<PruneResult>)
  {
    /** The write landed, however it is reported. */
    predicate Landed() { Committed? || StatFailed? }
  }

  /** Refused, already so (durable, not known durable, or not known to have a file), or changed. */
  datatype ArchiveOutcome = ArchiveRefused | Same | SameUnsynced | SameUnknown | Changed(synced: bool)

  // ---------- What holds between operations ----------

  /** The version's bytes are canonical, name it, and hash the bytes below it. */
  ghost predicate Chained(files: Versions, v: nat)
    requires v in files
  {
    exists h :: Canonical(files[v], h) && h.version == v && !h.archived &&
      (v > 0 && v - 1 in files ==> h.previousHash == ContentHash(files[v - 1]))
  }

  predicate Differ(a: string, b: string) { ExtractBody(a) != ExtractBody(b) || MetadataOf(a) != MetadataOf(b) }

  /** The files are some lo..hi, and hi is the current one. */
  ghost predicate Consecutive(files: Versions, current: Option<nat>) {
    if current.None? then files == map[]
    else
      current.value in files &&
      (forall v <- files :: 1 <= v <= current.value && (v < current.value ==> v + 1 in files))
  }

  ghost predicate Linked(files: Versions, current: Option<nat>) {
    && Consecutive(files, current)
    && (forall v <- files :: Chained(files, v))
    && (forall v <- files :: v > 0 && v - 1 in files ==> Differ(files[v - 1], files[v]))
  }

  lemma {:induction false} ConsecutiveUp(files: Versions, current: nat, a: nat, b: nat)
    requires Consecutive(files, Some(current)) && a in files && a <= b <= current
    ensures b in files
    decreases b - a
  {
    if a < b { ConsecutiveUp(files, current, a + 1, b); }
  }

  ghost predicate IsHighest(files: Versions, n: nat) {
    (n == 0 || n in files) && forall v <- files :: v <= n
  }

  // ---------- A new version ----------

  /** What a landed write stores. */
  ghost function NewText(files: Versions, next: nat, content: string, meta: Meta): string {
    StoredText(next, if next > 1 && next - 1 in files then files[next - 1] else "", content, meta)
  }

  lemma NewTextChained(files: Versions, next: nat, content: string, meta: Meta)
    requires next > 1 ==> next - 1 in files && files[next - 1] != ""
    requires 1 <= next <= MAX_VERSION_NUMBER && MetaOk(meta) && 0 !in files
    ensures Chained(files[next := NewText(files, next, content, meta)], next)
    ensures ExtractBody(NewText(files, next, content, meta)) == content
    ensures MetadataOf(NewText(files, next, content, meta)) == NormalizeMetadata(meta)
  {
    hide Canonical;
    hide StoredText;
    hide ExtractBody;
    hide MetadataOf;
    hide MetaOk;
    hide NormalizeMetadata;
    hide ContentHash;
    var prev := if next > 1 then files[next - 1] else "";
    StoredVersionRoundTrip(next, prev, content, meta);
    assert Canonical(NewText(files, next, content, meta), NewHeader(next, prev));
  }

  /**
   * Adding a version above the current one keeps the chain; adding one anywhere else, as a
   * write does when it takes an unreadable directory for an empty one, breaks it.
   */
  lemma CommitLinks(files: Versions, current: Option<nat>, next: nat, content: string, meta: Meta)
    requires Linked(files, current) && next !in files && 1 <= next <= MAX_VERSION_NUMBER && MetaOk(meta)
    requires next > 1 ==> next - 1 in files && files[next - 1] != ""
    requires next > 1 ==> ExtractBody(files[next - 1]) != content || MetadataOf(files[next - 1]) != NormalizeMetadata(meta)
    ensures Linked(files[next := NewText(files, next, content, meta)], Some(next)) <==>
      (current.None? || next > current.value)
  {
    hide NewText;
    hide ExtractBody;
    hide MetadataOf;
    hide MetaOk;
    hide NormalizeMetadata;
    hide Chained;
    var now := files[next := NewText(files, next, content, meta)];
    NewTextChained(files, next, content, meta);
    if current.None? || next > current.value {
      if current.Some? && next - 1 in files { assert next - 1 <= current.value; }
      forall v <- now ensures Chained(now, v) {
        if v != next { ChainedBelow(files, now, v); }
      }
    } else {
      assert current.value in now && current.value != next;
    }
  }

  lemma ChainedBelow(files: Versions, now: Versions, v: nat)
    requires v in files && v in now && now[v] == files[v] && Chained(files, v)
    requires v > 0 && v - 1 in now ==> v - 1 in files && now[v - 1] == files[v - 1]
    ensures Chained(now, v)
  {
    hide Canonical;
  }

  /** Removing files below the current one keeps the chain exactly when nothing below a removed file stays. */
  lemma RemovalLinks(files: Versions, current: nat, gone: set<nat>)
    requires Linked(files, Some(current)) && current !in gone && gone <= files.Keys
    ensures Linked(files - gone, Some(current)) <==> forall u <- files, v <- gone :: u < v ==> u in gone
  {
    hide Chained;
    hide Differ;
    var left := files - gone;
    if forall u <- files, v <- gone :: u < v ==> u in gone {
      forall v <- left ensures v < current ==> v + 1 in left {
        assert v in files && (v + 1 in gone ==> v in gone);
      }
      forall v <- left ensures Chained(left, v) { ChainedBelow(files, left, v); }
    } else {
      var u, v :| u in files && v in gone && u < v && u !in gone;
      if Consecutive(left, Some(current)) {
        ConsecutiveUp(left, current, u, v);
        assert false;
      }
    }
  }

  // ---------- Retention ----------

  /** What one prune removes: the examined versions up to the cutoff and below the first that is stuck. */
  ghost function Doomed(versions: set<nat>, cutoff: int, f: Faults): set<nat> {
    if f.pruneOpen then {}
    else
      set v | v in versions && 1 <= v <= cutoff && v !in f.unseen && forall u <- versions :: 1 <= u <= v && u in f.stuck ==> u in f.unseen
  }

  /** What a write declaring meta removes once version next is current. */
  ghost function PrunedBy(versions: set<nat>, next: nat, meta: Meta, f: Faults): set<nat> {
    if RetentionValue(meta) > 0 && !f.statAfter then Doomed(versions, next - RetentionValue(meta), f) else {}
  }

  /**
   * The prune's failing case, seen before it starts: an entry it cannot examine lies below a
   * version it examines, and no removal on the way up to that version fails.
   */
  ghost predicate SkipsBelow(versions: set<nat>, cutoff: int, f: Faults) {
    !f.pruneOpen && exists u <- versions, v <- versions ::
      u in f.unseen && u < v <= cutoff && v !in f.unseen && forall w <- versions :: w <= v && w in f.stuck ==> w in f.unseen
  }

  /** What a landing write will break, told from the document, the metadata and the faults alone. */
  ghost predicate Breaks(files: Versions, current: Option<nat>, meta: Meta, f: Faults) {
    current.Some? &&
    (f.listing ||
     (RetentionValue(meta) > 0 && !f.statAfter && SkipsBelow(files.Keys, current.value + 1 - RetentionValue(meta), f)))
  }

  /** Pruning keeps the chain exactly when it skips nothing. */
  lemma PruneLinks(files: Versions, current: nat, cutoff: int, f: Faults)
    requires Linked(files, Some(current)) && cutoff < current
    ensures Linked(files - Doomed(files.Keys, cutoff, f), Some(current)) <==> !SkipsBelow(files.Keys, cutoff, f)
  {
    hide Linked;
    var gone := Doomed(files.Keys, cutoff, f);
    VersionsFromOne(files, current);
    RemovalLinks(files, current, gone);
    if SkipsBelow(files.Keys, cutoff, f) {
      var u, v :| u in files && v in files && u in f.unseen && u < v <= cutoff && v !in f.unseen &&
        forall w <- files :: w <= v && w in f.stuck ==> w in f.unseen;
      assert u in files && v in gone && u < v && u !in gone;
    } else {
      forall u <- files, v <- gone | u < v ensures u in gone {}
    }
  }

  lemma VersionsFromOne(files: Versions, current: nat)
    requires Linked(files, Some(current))
    ensures current in files && forall v <- files :: 1 <= v <= current
  {
    hide Chained;
    hide Differ;
  }

  // ---------- The effect of a write ----------

  predicate SameAs(stored: string, content: string, meta: Meta) {
    ExtractBody(stored) == content && MetadataOf(stored) == NormalizeMetadata(meta)
  }

  /** How the files and the current version change when a write reports r. */
  ghost predicate WriteEffect(files: Versions, current: Option<nat>, files': Versions, current': Option<nat>,
                              content: string, meta: Meta, f: Faults, r: Outcome) {
    if !r.Landed() then files' == files && current' == current
    else
      var next := r.version;
      && current' == Some(next) && next !in files && 1 <= next <= MAX_VERSION_NUMBER && MetaOk(meta)
      && (if current.None? || f.listing then next == 1 else IsHighest(files, next - 1))
      && (next > 1 ==> next - 1 in files && files[next - 1] != "" && !SameAs(files[next - 1], content, meta))
      && files' == files[next := NewText(files, next, content, meta)] - PrunedBy(files.Keys + {next}, next, meta, f)
      && (r.StatFailed? <==> f.statAfter)
  }

  /**
   * A write that lands keeps the document linked unless it took an unreadable directory for an
   * empty one, or its prune passes over a version it cannot examine; then it breaks it.
   */
  lemma WriteKeepsLinked(files: Versions, current: Option<nat>, files': Versions, current': Option<nat>,
                         content: string, meta: Meta, f: Faults, r: Outcome)
    requires Linked(files, current) && WriteEffect(files, current, files', current', content, meta, f, r)
    ensures !r.Landed() ==> Linked(files', current')
    ensures r.Landed() ==> (Linked(files', current') <==> !Breaks(files, current, meta, f))
  {
    hide Linked;
    hide MetaOk;
    hide NewText;
    hide SameAs;
    hide Doomed;
    hide SkipsBelow;
    if r.Landed() {
      var next, keep := r.version, RetentionValue(meta);
      var now := files[next := NewText(files, next, content, meta)];
      NextAbove(files, current, next, f.listing);
      SameAsParts(files, next, content, meta);
      CommitLinks(files, current, next, content, meta);
      assert now.Keys == files.Keys + {next};
      if current.Some? && f.listing {
        FirstPrunesNothing(now.Keys, meta, f);
        assert now - {} == now;
      } else if keep > 0 && !f.statAfter {
        var cutoff: int := next as int - keep;
        PruneLinks(now, next, cutoff, f);
        SkipsOld(files.Keys, next, cutoff, f);
        if current.None? { NothingToSkip(files, current, cutoff, f); }
      } else {
        assert now - {} == now;
      }
    }
  }

  /** The new version is above the cutoff, so it neither skips nor is skipped. */
  lemma SkipsOld(versions: set<nat>, next: nat, cutoff: int, f: Faults)
    requires cutoff < next
    ensures SkipsBelow(versions + {next}, cutoff, f) <==> SkipsBelow(versions, cutoff, f)
  {
    if SkipsBelow(versions, cutoff, f) {
      var u, v :| u in versions && v in versions && u in f.unseen && u < v <= cutoff && v !in f.unseen &&
        forall w <- versions :: w <= v && w in f.stuck ==> w in f.unseen;
      assert u in versions + {next} && v in versions + {next};
    }
  }

  lemma NothingToSkip(files: Versions, current: Option<nat>, cutoff: int, f: Faults)
    requires Linked(files, current) && current.None?
    ensures !SkipsBelow(files.Keys, cutoff, f)
  {
  }

  lemma NextAbove(files: Versions, current: Option<nat>, next: nat, listing: bool)
    requires Linked(files, current) && next >= 1
    requires if current.None? || listing then next == 1 else IsHighest(files, next - 1)
    ensures next > 1 ==> current.Some? && next == current.value + 1
    ensures current.Some? && !listing ==> next > 1
    ensures current.Some? ==> current.value >= 1
  {
    hide Chained;
    hide Differ;
  }

  lemma NewestKept(versions: set<nat>, next: nat, meta: Meta, f: Faults)
    ensures PrunedBy(versions, next, meta, f) <= versions && next !in PrunedBy(versions, next, meta, f)
  {
  }

  lemma FirstPrunesNothing(versions: set<nat>, meta: Meta, f: Faults)
    ensures PrunedBy(versions, 1, meta, f) == {}
  {
  }

  lemma SameAsParts(files: Versions, next: nat, content: string, meta: Meta)
    requires next > 1 ==> next - 1 in files && !SameAs(files[next - 1], content, meta)
    ensures next > 1 ==> ExtractBody(files[next - 1]) != content || MetadataOf(files[next - 1]) != NormalizeMetadata(meta)
  {
  }

  // ---------- The document ----------

  class Document {
    /** Neither index.md nor log.md. */
    const concept: bool
    var files: Versions
    /** The version the current link names. */
    var current: Option<nat>
    /** The archive sidecar, once one has been written. */
    var archiveState: Option<bool>

    ghost predicate Valid()
      reads this
    {
      Linked(files, current)
    }

    constructor (concept: bool)
      ensures Valid() && files == map[] && current == None && archiveState == None && this.concept == concept
    {
      this.concept := concept;
      files, current, archiveState := map[], None, None;
    }

    /** The highest version number in the directory, or 0. */
    method Highest() returns (n: nat)
      ensures IsHighest(files, n)
    {
      n := 0;
      var todo := files.Keys;
      while todo != {}
        invariant todo <= files.Keys
        invariant n == 0 || n in files
        invariant forall v <- files :: v in todo || v <= n
        decreases todo
      {
        var v :| v in todo;
        if v > n { n := v; }
        todo := todo - {v};
      }
    }

    /** The directory listing as sorted version numbers. */
    method Listed(unseen: set<nat>) returns (versions: seq<nat>)
      ensures InOrder(versions) && forall v :: v in versions <==> v in files && v >= 1 && v !in unseen
    {
      versions := [];
      var todo := files.Keys - unseen - {0};
      while todo != {}
        invariant todo <= files.Keys - unseen - {0}
        invariant InOrder(versions)
        invariant forall v :: v in versions <==> v in files && v >= 1 && v !in unseen && v !in todo
        decreases todo
      {
        var v :| v in todo;
        InsertVersion(v, versions);
        versions := Insert(v, versions);
        todo := todo - {v};
      }
    }

    // ---------- Steps of a write ----------

    /** The sidecar, or the legacy flag of the current bytes before there is one. */
    function EffectiveArchived(tip: string): bool
      reads this
    {
      if archiveState.Some? then archiveState.value else IsArchived(tip)
    }

    /** None means: go on and write the new version. */
    method PrepareExisting(next: nat, content: string, meta: Meta, f: Faults) returns (r: Option<Outcome>)
      requires next > 1
      ensures r.Some? ==> !r.value.Landed()
      ensures r.None? && next - 1 in files ==>
        !EffectiveArchived(files[next - 1]) && !SameAs(files[next - 1], content, meta)
      ensures r.Some? && r.value.NotModified? ==>
        r.value.version == next - 1 && next - 1 in files && SameAs(files[next - 1], content, meta)
      ensures r.Some? && r.value.Archived? ==> next - 1 in files && EffectiveArchived(files[next - 1])
      ensures r.Some? ==> r.value.Failed? || r.value.NotModified? || r.value.Archived?
      ensures r.Some? && r.value.Failed? ==> f.archiveRead || f.prevRead || f.prevStat
    {
      if f.archiveRead { return Some(Failed("read archive state")); }
      if next - 1 in files && EffectiveArchived(files[next - 1]) { return Some(Archived); }
      if f.prevRead { return Some(Failed("read previous version")); }
      if next - 1 !in files { return None; }
      var prevData := files[next - 1];
      if ExtractBody(prevData) == content && MetadataOf(prevData) == NormalizeMetadata(meta) {
        if f.prevStat { return Some(Failed("stat current version")); }
        return Some(NotModified(next - 1));
      }
      return None;
    }

    /** Creates the file exclusively; a failed write or sync removes it again. */
    method CreateVersionFile(version: nat, stored: string, f: Faults) returns (r: Option<Outcome>)
      modifies `files
      ensures r.None? ==> version !in old(files) && files == old(files)[version := stored]
      ensures r.Some? ==> files == old(files) && !r.value.Landed()
      ensures r.Some? ==> f.create || f.write || version in files
      ensures r.Some? ==> r.value.VersionExists? || r.value.Failed?
    {
      if f.create { return Some(Failed("create version file")); }
      if version in files { return Some(VersionExists); }
      files := files[version := ""];
      if f.write {
        files := files - {version};
        return Some(Failed("write version file"));
      }
      files := files[version := stored];
      return None;
    }

    /** Renames a new link over the current one; applied says whether it moved. */
    method SwapCurrent(version: nat, f: Faults) returns (applied: bool, synced: bool)
      modifies `current
      ensures applied <==> !f.swap.NotApplied?
      ensures current == if applied then Some(version) else old(current)
      ensures synced <==> f.swap.Applied?
    {
      if f.swap.NotApplied? { return false, false; }
      current := Some(version);
      return true, f.swap.Applied?;
    }

    /** Deletes the oldest versions down to keep, stopping at the first failure. */
    method PruneVersions(newest: nat, keep: nat, f: Faults) returns (res: Option<PruneResult>)
      modifies `files
      ensures files == old(files) - Doomed(old(files).Keys, newest - keep, f)
      ensures res.None? ==> files == old(files)
      ensures res.Some? && res.value.failed ==> f.pruneOpen || f.stuck != {}
      ensures res.Some? && !res.value.failed ==>
        res.value.from in old(files) && res.value.to in old(files) &&
        forall v :: v in old(files) && v !in files ==> res.value.from <= v <= res.value.to
    {
      var cutoff := newest - keep;
      if cutoff < 1 { return None; }
      if f.pruneOpen { return Some(PruneResult(0, 0, true)); }
      var versions := Listed(f.unseen);
      ghost var before := files;
      res := None;
      var i := 0;
      while i < |versions| && versions[i] <= cutoff
        invariant i <= |versions|
        invariant files == before - (set v <- versions[..i])
        invariant forall v <- versions[..i] :: v !in f.stuck && v <= cutoff
        invariant res.None? <==> i == 0
        invariant res.Some? ==> res == Some(PruneResult(versions[0], versions[i - 1], false))
      {
        if versions[i] in f.stuck {
          res := Some(if res.None? then PruneResult(0, 0, true) else res.value.(failed := true));
          break;
        }
        files := files - {versions[i]};
        res := Some(PruneResult(if res.None? then versions[i] else res.value.from, versions[i], false));
        i := i + 1;
      }
      DoomedListed(before, versions, i, cutoff, f);
    }

    /** Makes stored the current version next, then prunes; a version the link never reached is removed. */
    method Install(next: nat, stored: string, meta: Meta, f: Faults) returns (r: Outcome)
      modifies `files, `current
      ensures !r.Landed() ==> files == old(files) && current == old(current)
      ensures r.Landed() ==> r.version == next && next !in old(files) && current == Some(next)
      ensures r.Landed() ==> (r.StatFailed? <==> f.statAfter)
      ensures r.Landed() ==> files == old(files)[next := stored] - PrunedBy(old(files).Keys + {next}, next, meta, f)
      ensures r.Committed? ==> r.synced == f.swap.Applied? && !r.stale
      ensures r.Committed? && r.prune.None? ==> old(files).Keys <= files.Keys
      ensures r.Committed? && r.prune.Some? && r.prune.value.failed ==> f.pruneOpen || f.stuck != {}
      ensures r.Landed() || r.Failed? || r.VersionExists?
      ensures f.Works() && next !in old(files) ==> r.Landed()
    {
      hide Doomed;
      var created := CreateVersionFile(next, stored, f);
      if created.Some? { return created.value; }
      var applied, synced := SwapCurrent(next, f);
      if !applied {
        files := files - {next};
        return Failed("swap current");
      }
      assert files.Keys == old(files).Keys + {next};
      if f.statAfter { return StatFailed(next); }
      var keep := RetentionValue(meta);
      var prune := None;
      if keep > 0 { prune := PruneVersions(next, keep, f); }
      return Committed(next, synced, false, prune);
    }

    // ---------- Operations ----------

    /** Nothing in the way of a new version with this content. */
    ghost predicate Writable(content: string, meta: Meta)
      reads this
    {
      && Valid() && MetaOk(meta) && Len(content) <= MAX_BODY_LENGTH
      && (current.Some? ==>
            current.value < MAX_VERSION_NUMBER && !EffectiveArchived(files[current.value]) &&
            !SameAs(files[current.value], content, meta))
    }

    method Write(content: string, meta: Meta, f: Faults) returns (r: Outcome)
      modifies `files, `current
      ensures WriteEffect(old(files), old(current), files, current, content, meta, f, r)
      ensures old(Writable(content, meta)) && f.Works() && (f.listing ==> 1 !in old(files)) ==> r.Landed()
      ensures r.Landed() ==> (r.StatFailed? <==> f.statAfter)
      ensures r.Committed? ==> r.synced == f.swap.Applied? && !r.stale
      ensures r.Committed? && r.prune.None? ==> old(files).Keys <= files.Keys
      ensures r.Committed? && r.prune.Some? && r.prune.value.failed ==> f.pruneOpen || f.stuck != {}
      ensures r.NotModified? ==> r.version in old(files) && SameAs(old(files)[r.version], content, meta)
      ensures r.Archived? ==> old(current).Some?
      ensures !r.Conflict?
    {
      hide Linked;
      hide MetaOk;
      hide StoredText;
      hide SameAs;
      hide PrunedBy;
      hide IsHighest;
      hide Writable;
      hide Len;
      hide NormalizeMetadata;
      hide EffectiveArchived;
      if f.mkdir { return Failed("create versions dir"); }
      if f.stat { return Failed("stat current file"); }
      var next := 1;
      if current.Some? {
        var highest := 0;
        if !f.listing { highest := Highest(); }
        next := highest + 1;
      }
      WritableNext(content, meta, next, f);
      if next > 1 {
        var prepared := PrepareExisting(next, content, meta, f);
        if prepared.Some? { return prepared.value; }
      }
      var prevData := "";
      if next > 1 {
        if f.prevHash || next - 1 !in files { return Failed("read previous version for hashing"); }
        prevData := files[next - 1];
      }
      var stored := SerializeVersion(next, prevData, content, meta);
      if stored.Err? { return Failed(stored.error); }
      FrontmatterFits(next, prevData, content, meta);
      if Len(stored.value) > MAX_BODY_LENGTH + MAX_STORE_FRONTMATTER { return Failed("size limit"); }
      if f.refused { return Failed("write check"); }
      r := Install(next, stored.value, meta, f);
    }

    lemma WritableNext(content: string, meta: Meta, next: nat, f: Faults)
      requires if current.None? || f.listing then next == 1 else next >= 1 && IsHighest(files, next - 1)
      ensures Writable(content, meta) && (f.listing ==> 1 !in files) ==>
        next <= MAX_VERSION_NUMBER && next !in files && (next == 1 || (next - 1 in files && files[next - 1] != ""))
      ensures Writable(content, meta) && next > 1 ==>
        !EffectiveArchived(files[next - 1]) && !SameAs(files[next - 1], content, meta)
      ensures Writable(content, meta) ==> MetaOk(meta) && Len(content) <= MAX_BODY_LENGTH
    {
      hide EffectiveArchived;
      hide SameAs;
      hide MetaOk;
      if Writable(content, meta) {
        NextAbove(files, current, next, f.listing);
      }
    }

    lemma WritableInput(content: string, meta: Meta)
      ensures Writable(content, meta) ==> MetaOk(meta) && Len(content) <= MAX_BODY_LENGTH
    {
      hide MetaOk;
      hide Len;
    }

    /** Validates the request, then writes if the document is at the expected version. */
    method WriteChecked(expected: int, content: string, meta: Meta, f: Faults) returns (r: Outcome)
      modifies `files, `current
      ensures WriteEffect(old(files), old(current), files, current, content, meta, f, r)
      ensures Len(content) > MAX_BODY_LENGTH || !MetaOk(meta) ==> r.Failed?
      ensures r.Conflict? ==> expected >= 0
      ensures r.Committed? && expected >= 0 ==> (r.stale <==> r.version != expected + 1)
      ensures r.Committed? && r.stale && old(Valid()) ==> f.firstListing || f.listing
      ensures old(Writable(content, meta)) && f.Works() && !f.listing && !f.firstListing ==>
        expected >= 0 && IsHighest(old(files), expected) ==> r.Landed()
      ensures r.Landed() ==> (r.StatFailed? <==> f.statAfter)
    {
      hide Linked;
      hide MetaOk;
      hide WriteEffect;
      hide SameAs;
      hide Writable;
      hide PrunedBy;
      hide StoredText;
      hide Len;
      hide NormalizeMetadata;
      var ok := ValidateMeta(meta);
      WritableInput(content, meta);
      NothingHappened(files, current, content, meta, f);
      if Len(content) > MAX_BODY_LENGTH || !ok { return Failed("invalid write"); }
      if expected < 0 {
        r := Write(content, meta, f);
        return;
      }
      var now := 0;
      if !f.firstListing { now := Highest(); }
      if now != expected { return Conflict(now); }
      r := WriteExpected(expected, content, meta, f);
    }

    /** Writes, and reports a document that has moved on as a conflict or as stale. */
    method WriteExpected(expected: nat, content: string, meta: Meta, f: Faults) returns (r: Outcome)
      modifies `files, `current
      ensures WriteEffect(old(files), old(current), files, current, content, meta, f, r)
      ensures r.Committed? ==> (r.stale <==> r.version != expected + 1)
      ensures r.Committed? && r.stale && old(Valid()) && IsHighest(old(files), expected) ==> f.listing
      ensures old(Writable(content, meta)) && f.Works() && !f.listing ==> r.Landed()
      ensures r.Landed() ==> (r.StatFailed? <==> f.statAfter)
    {
      hide Linked;
      hide MetaOk;
      hide WriteEffect;
      hide SameAs;
      hide Writable;
      hide PrunedBy;
      hide StoredText;
      hide Len;
      hide NormalizeMetadata;
      ghost var was, at := files, current;
      r := Write(content, meta, f);
      match r
      case Committed(version, synced, _, prune) =>
        StaleOnly(was, at, files, current, content, meta, f, r, expected);
        r := Committed(version, synced, version != expected + 1, prune);
        StaleToo(was, at, files, current, content, meta, f, version, synced, prune, version != expected + 1);
      case VersionExists =>
        StillThere(was, at, files, current, content, meta, f, r);
        var again := 0;
        if !f.recheck { again := Highest(); }
        NothingHappened(files, current, content, meta, f);
        r := Conflict(again);
      case NotModified(version) =>
        StillThere(was, at, files, current, content, meta, f, r);
        NothingHappened(files, current, content, meta, f);
        if version != expected && version != expected + 1 { r := Conflict(version); }
      case _ =>
    }

    /** Appends to the expected version, under its metadata with the request's on top. */
    method Append(expected: int, content: string, meta: Meta, f: Faults) returns (r: Outcome)
      modifies `files, `current
      ensures r.Landed() ==> expected >= 1 && expected in old(files) && content != ""
      ensures r.Landed() ==>
        var base := old(files)[expected];
        WriteEffect(old(files), old(current), files, current,
                    ExtractBody(base) + Separator(ExtractBody(base)) + content,
                    PrepareAppendMeta(concept, MetadataOf(base), meta), f, r)
      ensures !r.Landed() ==> files == old(files) && current == old(current)
      ensures r.Landed() ==> (r.StatFailed? <==> f.statAfter)
      ensures r.Committed? ==> (r.stale <==> r.version != expected + 1)
    {
      hide MetaOk;
      if expected < 1 { return Failed("APPEND requires expected-version >= 1"); }
      if content == "" { return Failed("APPEND requires non-empty content"); }
      var ok := ValidateMeta(meta);
      if !ok { return Failed("invalid metadata"); }
      if f.get || expected !in files || Len(files[expected]) > MAX_BODY_LENGTH + MAX_STORE_FRONTMATTER {
        var now := 0;
        if !f.firstListing { now := Highest(); }
        if now > 0 && now != expected { return Conflict(now); }
        return Failed("read base version");
      }
      var base := files[expected];
      var combined := JoinContent(ExtractBody(base), content);
      if combined.None? { return Failed("size limit"); }
      r := WriteChecked(expected, combined.value, PrepareAppendMeta(concept, MetadataOf(base), meta), f);
    }

    /**
     * Reads every listed version oldest first. Breaks and malformed files are reported only
     * after all reads, an unreadable file before either.
     */
    method VerifyChain(unseen: set<nat>, unreadable: set<nat>) returns (r: ChainResult, versions: seq<nat>)
      ensures InOrder(versions) && forall v :: v in versions <==> v in files && v >= 1 && v !in unseen
      ensures r.NoHistory? <==> current.None? || versions == []
      ensures !r.NoHistory? ==> (r.Unreadable? <==> exists v <- versions :: v in unreadable)
      ensures !r.NoHistory? && !r.Unreadable? ==> (r.Intact? <==> ChainOk(files, versions))
      ensures r.Broken? || r.Malformed? ==> (r.Broken? <==> !LinksOk(files, versions))
    {
      hide Canonical;
      hide LinkOk;
      hide LinksOk;
      hide FormOk;
      versions := Listed(unseen);
      if current.None? || versions == [] { return NoHistory, versions; }
      var previousData := "";
      NoLinks(files);
      assert versions[..0] == [];
      var chainErr: Option<nat>, formatErr: Option<nat> := None, None;
      for i := 0 to |versions|
        invariant forall v <- versions[..i] :: v !in unreadable
        invariant i > 0 ==> previousData == files[versions[i - 1]]
        invariant chainErr.None? <==> LinksOk(files, versions[..i])
        invariant formatErr.None? <==> forall v <- versions[..i] :: FormOk(files, v)
      {
        assert versions[i] in versions && (i > 0 ==> versions[i - 1] in versions);
        var v := versions[i];
        if v in unreadable { return Unreadable(v), versions; }
        var currentData := files[v];
        if i > 0 && chainErr.None? {
          LinkIs(files, versions[i - 1], v);
          var recorded := ExtractPreviousHash(currentData);
          if recorded == "" || recorded != ContentHash(previousData) { chainErr := Some(v); }
        }
        if formatErr.None? {
          var header := InspectStoredVersion(currentData);
          FormIs(files, v, header);
          if header.Err? || header.value.version != v { formatErr := Some(v); }
        }
        assert versions[..i + 1] == versions[..i] + [v];
        LinksStep(files, versions[..i], v);
        previousData := currentData;
      }
      assert versions[..|versions|] == versions;
      if chainErr.Some? { return Broken(chainErr.value), versions; }
      if formatErr.Some? { return Malformed(formatErr.value), versions; }
      return Intact, versions;
    }

    /** What hides the document from an archive request. */
    predicate Hidden(f: Faults)
      reads this
    {
      current.None? || f.stat || f.listing || f.prevRead || f.prevStat || f.archiveRead
    }

    /**
     * Changes the archive state; no version file is touched. A request for the state the
     * document already has only makes sure that an existing archive file is durable.
     */
    method Archive(archived: bool, f: Faults) returns (r: ArchiveOutcome)
      modifies `archiveState
      ensures archiveState == if r.Changed? then Some(archived) else old(archiveState)
      ensures old(Valid()) ==>
        r == if old(Hidden(f)) then ArchiveRefused
             else if old(EffectiveArchived(files[current.value])) == archived then
               (if f.sidecar then SameUnknown else if archiveState.Some? && f.sidecarSync then SameUnsynced else Same)
             else if f.refused || f.create || f.write || f.swap.NotApplied? then ArchiveRefused
             else Changed(f.swap.Applied?)
      ensures old(Valid()) && (r.Same? || r.SameUnsynced? || r.SameUnknown? || r.Changed?) ==>
        current.Some? && EffectiveArchived(files[current.value]) == archived
    {
      hide Chained;
      hide Differ;
      if f.stat { return ArchiveRefused; }
      var now := 0;
      if !f.listing { now := Highest(); }
      if now == 0 || f.prevRead || f.prevStat || f.archiveRead { return ArchiveRefused; }
      if EffectiveArchived(files[now]) == archived {
        if f.sidecar { return SameUnknown; }
        if archiveState.Some? && f.sidecarSync { return SameUnsynced; }
        return Same;
      }
      if f.refused || f.create || f.write || f.swap.NotApplied? { return ArchiveRefused; }
      archiveState := Some(archived);
      return Changed(f.swap.Applied?);
    }
  }

  // ---------- Sorted version numbers ----------

  ghost predicate InOrder(vs: seq<nat>) { forall i, j :: 0 <= i < j < |vs| ==> vs[i] < vs[j] }

  function Insert(v: nat, vs: seq<nat>): seq<nat> {
    if vs == [] || v < vs[0] then [v] + vs else [vs[0]] + Insert(v, vs[1..])
  }

  lemma {:induction false} InsertVersion(v: nat, vs: seq<nat>)
    requires InOrder(vs) && v !in vs
    ensures InOrder(Insert(v, vs)) && forall x :: x in Insert(v, vs) <==> x == v || x in vs
  {
    if vs != [] && v >= vs[0] {
      InsertVersion(v, vs[1..]);
      assert vs == [vs[0]] + vs[1..];
      var rest := Insert(v, vs[1..]);
      forall i | 0 <= i < |rest| ensures vs[0] < rest[i] {
        assert rest[i] in rest;
        if rest[i] in vs[1..] { var j :| 0 <= j < |vs[1..]| && vs[1..][j] == rest[i]; }
      }
    }
  }

  /** The loop over the listing removed exactly the doomed versions. */
  lemma DoomedListed(files: Versions, versions: seq<nat>, i: nat, cutoff: int, f: Faults)
    requires InOrder(versions) && (forall v :: v in versions <==> v in files && v >= 1 && v !in f.unseen)
    requires i <= |versions| && !f.pruneOpen && forall v <- versions[..i] :: v !in f.stuck && v <= cutoff
    requires i < |versions| ==> versions[i] > cutoff || versions[i] in f.stuck
    ensures (set v <- versions[..i]) == Doomed(files.Keys, cutoff, f)
  {
    forall v ensures v in versions[..i] <==> v in Doomed(files.Keys, cutoff, f) {
      if v in versions[..i] {
        assert v in versions;
        forall u <- files | 1 <= u <= v && u in f.stuck ensures u in f.unseen {
        }
      } else if v in versions {
        assert versions[i] in versions;
      }
    }
  }

  // ---------- Runs ----------

  datatype Op =
    | Publish(expected: int, content: string, meta: Meta)
    | Extend(expected: int, content: string, meta: Meta)
    | SetArchived(archived: bool)

  /**
   * The two listings a step must not lose: the one that numbers a version may fail only while
   * version 1 is there to refuse the create, and pruning must be able to examine every entry.
   */
  predicate SoundListing(files: Versions, current: Option<nat>, f: Faults) {
    (f.listing && current.Some? ==> 1 in files) && f.unseen == {}
  }

  lemma SoundStep(files: Versions, current: Option<nat>, files': Versions, current': Option<nat>,
                  content: string, meta: Meta, f: Faults, r: Outcome)
    requires Linked(files, current) && WriteEffect(files, current, files', current', content, meta, f, r)
    requires SoundListing(files, current, f)
    ensures Linked(files', current')
  {
    hide MetaOk;
    hide NewText;
    hide SameAs;
    hide Chained;
    hide Differ;
    WriteKeepsLinked(files, current, files', current', content, meta, f, r);
  }

  /** What is stored between two operations. */
  datatype Stage = Stage(files: Versions, current: Option<nat>)

  /** The content and the metadata that an operation would store. */
  ghost function Written(files: Versions, op: Op): string {
    match op
    case Publish(_, content, _) => content
    case Extend(expected, content, _) =>
      if expected in files then ExtractBody(files[expected]) + Separator(ExtractBody(files[expected])) + content else content
    case SetArchived(_) => ""
  }

  ghost function Declared(concept: bool, files: Versions, op: Op): Meta {
    match op
    case Publish(_, _, meta) => meta
    case Extend(expected, _, meta) =>
      if expected in files then PrepareAppendMeta(concept, MetadataOf(files[expected]), meta) else meta
    case SetArchived(_) => map[]
  }

  /** Nothing changed, or the operation's write landed. */
  ghost predicate Step(concept: bool, before: Stage, op: Op, f: Faults, after: Stage) {
    after == before ||
    (!op.SetArchived? &&
     exists r: Outcome :: r.Landed() && WriteEffect(before.files, before.current, after.files, after.current,
                                                    Written(before.files, op), Declared(concept, before.files, op), f, r))
  }

  ghost predicate Steps(concept: bool, trace: seq<Stage>, ops: seq<(Op, Faults)>) {
    |trace| == |ops| + 1 && forall k :: 0 <= k < |ops| ==> Step(concept, trace[k], ops[k].0, ops[k].1, trace[k + 1])
  }

  /** The k-th operation changes what is stored, and Breaks told so beforehand. */
  ghost predicate BreaksAt(concept: bool, trace: seq<Stage>, ops: seq<(Op, Faults)>, k: nat)
    requires k < |ops| && |trace| == |ops| + 1
  {
    trace[k + 1] != trace[k] && Breaks(trace[k].files, trace[k].current, Declared(concept, trace[k].files, ops[k].0), ops[k].1)
  }

  ghost predicate Unbroken(concept: bool, trace: seq<Stage>, ops: seq<(Op, Faults)>, k: nat)
    requires k <= |ops| && |trace| == |ops| + 1
  {
    forall j: nat :: j < k ==> !BreaksAt(concept, trace, ops, j)
  }

  ghost predicate LinkedStage(s: Stage) { Linked(s.files, s.current) }

  lemma StepLinks(concept: bool, before: Stage, op: Op, f: Faults, after: Stage)
    requires LinkedStage(before) && Step(concept, before, op, f, after)
    ensures LinkedStage(after) <==>
      after == before || !Breaks(before.files, before.current, Declared(concept, before.files, op), f)
  {
    hide Linked;
    hide WriteEffect;
    hide Breaks;
    hide Declared;
    hide Written;
    if after != before {
      var r: Outcome :| r.Landed() && WriteEffect(before.files, before.current, after.files, after.current,
                                                  Written(before.files, op), Declared(concept, before.files, op), f, r);
      WriteKeepsLinked(before.files, before.current, after.files, after.current, Written(before.files, op),
                       Declared(concept, before.files, op), f, r);
    }
  }

  /** The document is linked up to the first change that Breaks foretells, and not linked right after it. */
  lemma {:induction false} FirstBreak(concept: bool, trace: seq<Stage>, ops: seq<(Op, Faults)>, k: nat)
    requires Steps(concept, trace, ops) && LinkedStage(trace[0]) && k <= |ops| && Unbroken(concept, trace, ops, k)
    ensures LinkedStage(trace[k])
    ensures k < |ops| ==> (LinkedStage(trace[k + 1]) <==> !BreaksAt(concept, trace, ops, k))
  {
    hide LinkedStage;
    hide Step;
    hide Breaks;
    hide Declared;
    if k > 0 { FirstBreak(concept, trace, ops, k - 1); }
    if k < |ops| { StepLinks(concept, trace[k], ops[k].0, ops[k].1, trace[k + 1]); }
  }

  lemma SoundUnbroken(concept: bool, trace: seq<Stage>, ops: seq<(Op, Faults)>)
    requires |trace| == |ops| + 1 && forall k :: 0 <= k < |ops| ==> !ops[k].1.listing && ops[k].1.unseen == {}
    ensures Unbroken(concept, trace, ops, |ops|)
  {
  }

  /** One more operation at the end of a run. */
  lemma StepsSnoc(concept: bool, trace: seq<Stage>, ops: seq<(Op, Faults)>, i: nat, after: Stage)
    requires i < |ops| && Steps(concept, trace, ops[..i]) && Step(concept, trace[i], ops[i].0, ops[i].1, after)
    ensures Steps(concept, trace + [after], ops[..i + 1])
  {
    hide Step;
  }

  /**
   * Any operations, each under its own faults: the document stays linked up to the first write that
   * lands although Breaks foretold it, and is not linked right after it. With working listings there
   * is no such write, whatever else fails and however many prunes stop part way.
   */
  method Run(d: Document, ops: seq<(Op, Faults)>) returns (ghost trace: seq<Stage>)
    requires d.Valid()
    modifies d
    ensures Steps(d.concept, trace, ops)
    ensures trace[0] == Stage(old(d.files), old(d.current)) && trace[|ops|] == Stage(d.files, d.current)
    ensures forall k :: 0 <= k <= |ops| && Unbroken(d.concept, trace, ops, k) ==>
      LinkedStage(trace[k]) && (k < |ops| ==> (LinkedStage(trace[k + 1]) <==> !BreaksAt(d.concept, trace, ops, k)))
    ensures (forall k :: 0 <= k < |ops| ==> !ops[k].1.listing && ops[k].1.unseen == {}) ==> d.Valid()
  {
    hide Linked;
    hide Step;
    hide BreaksAt;
    trace := [Stage(d.files, d.current)];
    for i := 0 to |ops|
      invariant Steps(d.concept, trace, ops[..i])
      invariant trace[0] == Stage(old(d.files), old(d.current)) && trace[i] == Stage(d.files, d.current)
    {
      Perform(d, ops[i].0, ops[i].1);
      StepsSnoc(d.concept, trace, ops, i, Stage(d.files, d.current));
      trace := trace + [Stage(d.files, d.current)];
    }
    assert ops[..|ops|] == ops;
    forall k | 0 <= k <= |ops| && Unbroken(d.concept, trace, ops, k)
      ensures LinkedStage(trace[k]) && (k < |ops| ==> (LinkedStage(trace[k + 1]) <==> !BreaksAt(d.concept, trace, ops, k)))
    {
      FirstBreak(d.concept, trace, ops, k);
    }
    if forall k :: 0 <= k < |ops| ==> !ops[k].1.listing && ops[k].1.unseen == {} {
      SoundUnbroken(d.concept, trace, ops);
    }
  }

  /** One operation of a run. */
  method Perform(d: Document, op: Op, f: Faults)
    modifies d
    ensures Step(d.concept, Stage(old(d.files), old(d.current)), op, f, Stage(d.files, d.current))
  {
    hide Linked;
    hide WriteEffect;
    ghost var before := Stage(d.files, d.current);
    match op {
    case Publish(expected, content, meta) =>
      var r := d.WriteChecked(expected, content, meta, f);
      if !r.Landed() { Unlanded(before.files, before.current, d.files, d.current, content, meta, f, r); }
    case Extend(expected, content, meta) =>
      var r := d.Append(expected, content, meta, f);
    case SetArchived(archived) =>
      var _ := d.Archive(archived, f);
    }
  }

  lemma Unlanded(files: Versions, current: Option<nat>, files': Versions, current': Option<nat>,
                 content: string, meta: Meta, f: Faults, r: Outcome)
    requires WriteEffect(files, current, files', current', content, meta, f, r) && !r.Landed()
    ensures files' == files && current' == current
  {
  }

  /** After any run with working listings the chain verifies, from an empty store on. */
  method RunAndVerify(concept: bool, ops: seq<(Op, Faults)>) returns (d: Document, r: ChainResult)
    requires forall k :: 0 <= k < |ops| ==> !ops[k].1.listing && ops[k].1.unseen == {}
    ensures fresh(d) && d.Valid()
    ensures if d.files == map[] then r == NoHistory else r == Intact
  {
    d := new Document(concept);
    ghost var trace := Run(d, ops);
    var versions;
    r, versions := d.VerifyChain({}, {});
    WholeListing(d.files, d.current, versions);
  }

  lemma WholeListing(files: Versions, current: Option<nat>, versions: seq<nat>)
    requires Linked(files, current) && InOrder(versions)
    requires forall v :: v in versions <==> v in files && v >= 1
    ensures forall v <- versions :: v in files
    ensures ChainOk(files, versions)
    ensures current.None? ==> files == map[]
    ensures current.Some? ==> versions != [] && files != map[]
  {
    hide Chained;
    hide Differ;
    hide ChainOk;
    assert forall v :: v in versions <==> v in files;
    LinkedVerifies(files, current, versions);
  }

  // ---------- Two ways the chain is lost ----------

  lemma NoMeta()
    ensures MetaOk(map[]) && RetentionValue(map[]) == 0
  {
  }

  const KEEP_ONE: Meta := map["retention" := "1"]

  lemma OneIsOne()
    ensures ParseRetention("1") == Some(1)
  {
    assert DigitsValue("1") == 1 by { assert "1"[..0] == ""; }
  }

  lemma KeepOne()
    ensures MetaOk(KEEP_ONE) && RetentionValue(KEEP_ONE) == 1
  {
    hide ParseRetention;
    hide Len;
    OneIsOne();
    assert KEEP_ONE.Keys == {"retention"};
    SizeWithout("retention", {"retention"}, KEEP_ONE);
    assert {"retention"} - {"retention"} == {};
    ByteLen("retention");
    ByteLen("1");
    assert ValidMetaKey("retention");
  }

  lemma AtLanded(files: Versions, current: Option<nat>, files': Versions, current': Option<nat>,
                 content: string, meta: Meta, f: Faults, r: Outcome)
    requires Linked(files, current) && WriteEffect(files, current, files', current', content, meta, f, r)
    requires SoundListing(files, current, f) && r.Landed()
    ensures Linked(files', current') && current' == Some(r.version) && ExtractBody(files'[r.version]) == content
    ensures r.version == if current.None? then 1 else current.value + 1
    ensures !IsArchived(files'[r.version])
    ensures files'.Keys == files.Keys + {r.version} - PrunedBy(files.Keys + {r.version}, r.version, meta, f)
  {
    hide MetaOk;
    hide SameAs;
    hide Canonical;
    hide Differ;
    hide StoredText;
    SoundStep(files, current, files', current', content, meta, f, r);
    NextAbove(files, current, r.version, f.listing);
    var now := files[r.version := NewText(files, r.version, content, meta)];
    NewestKept(now.Keys, r.version, meta, f);
    assert now.Keys == files.Keys + {r.version};
    NewTextChained(files, r.version, content, meta);
    assert Chained(files', r.version);
    var h :| Canonical(files'[r.version], h) && h.version == r.version && !h.archived;
    CanonicalFieldsRead(files'[r.version], h);
  }

  lemma ReadyAgain(d: Document, content: string, meta: Meta)
    requires d.Valid() && d.current.Some? && d.archiveState == None && !IsArchived(d.files[d.current.value])
    requires ExtractBody(d.files[d.current.value]) != content && d.current.value < MAX_VERSION_NUMBER
    requires MetaOk(meta) && Len(content) <= MAX_BODY_LENGTH
    ensures d.Writable(content, meta)
  {
  }

  /**
   * Two versions, the first pruned, then a write whose listing of the directory fails: it
   * takes the document for a new one, writes v1 below v2 and points the document back at it.
   * Verifying the chain notices, unless the new v1 hashes as the pruned one did.
   */
  method ListingLost(last: string) returns (d: Document, r: Outcome, v: ChainResult)
    requires last != "b" && Len(last) <= MAX_BODY_LENGTH
    ensures fresh(d) && r.Committed? && r.version == 1 && d.files.Keys == {1, 2} && d.current == Some(1) && !d.Valid()
    ensures if Sum256(StoredText(1, "", "a", map[])) == Sum256(StoredText(1, "", last, map[])) then v.Intact? else v.Broken?
  {
    hide Linked;
    hide WriteEffect;
    hide MetaOk;
    hide StoredText;
    hide Sum256;
    NoMeta();
    var f := NO_FAULTS.(listing := true);
    d := OnlySecond();
    ReadyAgain(d, last, map[]);
    ghost var files, current := d.files, d.current;
    r := d.Write(last, map[], f);
    WriteKeepsLinked(files, current, d.files, d.current, last, map[], f, r);
    BackToOne(files, current, d.files, d.current, last, f, r);
    var versions;
    v, versions := d.VerifyChain({}, {});
    OneTwo(versions);
    LinkIs(d.files, 1, 2);
    SameHashes(StoredText(1, "", "a", map[]), StoredText(1, "", last, map[]));
    FirstTwoChained(files, d.files, last);
    assert LinksOk(d.files, versions) <==> LinkOk(d.files, 1, 2);
    assert ChainOk(d.files, versions) <==> LinkOk(d.files, 1, 2);
  }

  lemma OneTwo(versions: seq<nat>)
    requires InOrder(versions) && forall v :: v in versions <==> v in {1, 2}
    ensures versions == [1, 2]
  {
    assert 1 in versions && 2 in versions;
    Spread(versions, |versions| - 1);
    assert versions[0] in versions && versions[|versions| - 1] in versions;
  }

  lemma {:induction false} Spread(vs: seq<nat>, k: nat)
    requires InOrder(vs) && k < |vs|
    ensures vs[k] >= vs[0] + k
  {
    if k > 0 { Spread(vs, k - 1); }
  }

  lemma FirstTwoChained(was: Versions, now: Versions, last: string)
    requires Linked(was, Some(2)) && was.Keys == {2} && now == was[1 := StoredText(1, "", last, map[])]
    ensures FormOk(now, 1) && FormOk(now, 2)
  {
    hide StoredText;
    hide Canonical;
    NoMeta();
    NewTextChained(was, 1, last, map[]);
    assert Chained(was, 2);
  }

  /** One version, with body "a". */
  method OnlyFirst() returns (d: Document)
    ensures fresh(d) && IsAt(d, 1, "a") && d.files.Keys == {1} && d.files[1] == StoredText(1, "", "a", map[])
  {
    hide Linked;
    hide WriteEffect;
    hide StoredText;
    hide IsArchived;
    hide ExtractBody;
    hide MetaOk;
    NoMeta();
    ByteLen("a");
    d := new Document(true);
    CanGoOn(d, 0, "", "a", map[]);
    ghost var files, current := d.files, d.current;
    var r := d.Write("a", map[], NO_FAULTS);
    AtLanded(files, current, d.files, d.current, "a", map[], NO_FAULTS, r);
    OneMoreFile(files, current, d.files, d.current, "a", NO_FAULTS, r);
    StoredAs(files, current, d.files, d.current, "a", map[], NO_FAULTS, r);
  }

  /** Then body "b", which prunes "a": v2 still carries the hash of v1's bytes. */
  method OnlySecond() returns (d: Document)
    ensures fresh(d) && IsAt(d, 2, "b") && d.files.Keys == {2}
    ensures ExtractPreviousHash(d.files[2]) == ContentHash(StoredText(1, "", "a", map[]))
  {
    hide Linked;
    hide WriteEffect;
    hide StoredText;
    hide IsArchived;
    hide ExtractBody;
    hide ExtractPreviousHash;
    hide MetaOk;
    KeepOne();
    ByteLen("b");
    d := OnlyFirst();
    CanGoOn(d, 1, "a", "b", KEEP_ONE);
    ghost var files, current := d.files, d.current;
    FirstNonempty();
    var r := d.Write("b", KEEP_ONE, NO_FAULTS);
    AtLanded(files, current, d.files, d.current, "b", KEEP_ONE, NO_FAULTS, r);
    StoredAs(files, current, d.files, d.current, "b", KEEP_ONE, NO_FAULTS, r);
    FirstPruned(files, d.files);
    PreviousOf(files[1], "b", KEEP_ONE);
  }

  lemma FirstNonempty()
    ensures StoredText(1, "", "a", map[]) != ""
  {
    assert |FENCE| > 0;
  }

  lemma StoredAs(files: Versions, current: Option<nat>, files': Versions, current': Option<nat>,
                 content: string, meta: Meta, f: Faults, r: Outcome)
    requires WriteEffect(files, current, files', current', content, meta, f, r) && r.Landed()
    ensures r.version in files' && files'[r.version] == NewText(files, r.version, content, meta)
  {
    hide NewText;
    hide MetaOk;
    hide SameAs;
    NewestKept(files.Keys + {r.version}, r.version, meta, f);
    hide PrunedBy;
  }

  lemma PreviousOf(first: string, content: string, meta: Meta)
    requires MetaOk(meta) && first != ""
    ensures ExtractPreviousHash(StoredText(2, first, content, meta)) == ContentHash(first)
  {
    hide MetaOk;
    hide StoredText;
    hide ExtractPreviousHash;
    StoredVersionRoundTrip(2, first, content, meta);
  }

  lemma FirstPruned(files: Versions, files': Versions)
    requires files.Keys == {1}
    requires files'.Keys == files.Keys + {2} - PrunedBy(files.Keys + {2}, 2, KEEP_ONE, NO_FAULTS)
    ensures files'.Keys == {2}
  {
    hide MetaOk;
    hide ParseRetention;
    hide RetentionValue;
    KeepOne();
    assert Doomed({1, 2}, 1, NO_FAULTS) == {1};
  }

  lemma BackToOne(files: Versions, current: Option<nat>, files': Versions, current': Option<nat>,
                  content: string, f: Faults, r: Outcome)
    requires WriteEffect(files, current, files', current', content, map[], f, r) && r.Landed() && f.listing
    ensures r.version == 1 && current' == Some(1) && files' == files[1 := StoredText(1, "", content, map[])]
  {
    hide StoredText;
    hide MetaOk;
    NoMeta();
    assert files[1 := StoredText(1, "", content, map[])] - {} == files[1 := StoredText(1, "", content, map[])];
  }

  lemma SameHashes(x: string, y: string)
    ensures ContentHash(x) == ContentHash(y) <==> Sum256(x) == Sum256(y)
  {
    if ContentHash(x) == ContentHash(y) { SameHash(x, y); }
  }

  /** At version n (0 before the first) with this body, not archived. */
  ghost predicate IsAt(d: Document, n: nat, body: string)
    reads d
  {
    && d.Valid() && d.archiveState == None && d.current == (if n == 0 then None else Some(n))
    && (n > 0 ==> !IsArchived(d.files[n]) && ExtractBody(d.files[n]) == body)
  }

  lemma CanGoOn(d: Document, n: nat, body: string, content: string, meta: Meta)
    requires IsAt(d, n, body) && (n > 0 ==> content != body) && n < MAX_VERSION_NUMBER
    requires MetaOk(meta) && Len(content) <= MAX_BODY_LENGTH
    ensures d.Writable(content, meta) && d.Valid() && d.current == (if n == 0 then None else Some(n))
    ensures n == 0 ==> d.files == map[]
  {
    if n > 0 { ReadyAgain(d, content, meta); }
  }

  method GoOn(d: Document, n: nat, body: string, content: string)
    requires IsAt(d, n, body) && (n > 0 ==> content != body) && n < MAX_VERSION_NUMBER && Len(content) <= MAX_BODY_LENGTH
    modifies d
    ensures IsAt(d, n + 1, content)
    ensures d.files.Keys == old(d.files.Keys) + {n + 1}
  {
    hide Linked;
    hide WriteEffect;
    hide MetaOk;
    hide PrunedBy;
    hide IsArchived;
    hide ExtractBody;
    hide Document.Writable;
    hide Len;
    hide SameAs;
    hide NormalizeMetadata;
    hide Document.EffectiveArchived;
    NoMeta();
    CanGoOn(d, n, body, content, map[]);
    ghost var files, current := d.files, d.current;
    var r := d.Write(content, map[], NO_FAULTS);
    AtLanded(files, current, d.files, d.current, content, map[], NO_FAULTS, r);
    OneMoreFile(files, current, d.files, d.current, content, NO_FAULTS, r);
  }

  /** A document with bodies "a" and "b". */
  method TwoVersions() returns (d: Document)
    ensures fresh(d) && IsAt(d, 2, "b") && d.files.Keys == {1, 2}
  {
    hide Linked;
    hide IsArchived;
    hide ExtractBody;
    ByteLen("a");
    ByteLen("b");
    d := new Document(true);
    GoOn(d, 0, "", "a");
    GoOn(d, 1, "a", "b");
  }

  /**
   * Three versions, then retention one while v1's directory entry cannot be examined: the
   * prune removes v2 only and reports no error, and v3 has lost the version it hashes. Without
   * a collision among the three, verifying the chain notices.
   */
  method EntrySkipped() returns (d: Document, r: Outcome, v: ChainResult, ghost all: Versions)
    ensures fresh(d) && r.Committed? && r.version == 3 && d.files.Keys == {1, 3} && !d.Valid()
    ensures r.prune.Some? && !r.prune.value.failed
    ensures all.Keys == {1, 2, 3} && d.files == all - {2} && (NoCollision(all) ==> v.Broken?)
  {
    hide Linked;
    hide WriteEffect;
    hide MetaOk;
    hide IsArchived;
    hide ExtractBody;
    hide NoCollision;
    hide NewText;
    KeepOne();
    ByteLen("c");
    d := TwoVersions();
    ReadyAgain(d, "c", KEEP_ONE);
    ghost var files, current := d.files, d.current;
    var f := NO_FAULTS.(unseen := {1});
    r := d.Write("c", KEEP_ONE, f);
    MiddlePruned(files, current, d.files, d.current, "c", f, r);
    all := files[3 := NewText(files, 3, "c", KEEP_ONE)];
    var versions;
    v, versions := d.VerifyChain({}, {});
    assert 1 in versions;
    if NoCollision(all) { GapFound(files, current, d.files, d.current, "c", KEEP_ONE, f, r, versions); }
  }

  /**
   * Retention one again, and the information of the new file cannot be read: the version is
   * current and the chain whole, but the caller gets a failure and nothing has been pruned.
   */
  method StatLost() returns (d: Document, r: Outcome)
    ensures fresh(d) && r == StatFailed(3) && IsAt(d, 3, "c") && d.files.Keys == {1, 2, 3}
  {
    hide Linked;
    hide WriteEffect;
    hide MetaOk;
    hide IsArchived;
    hide ExtractBody;
    KeepOne();
    ByteLen("c");
    d := TwoVersions();
    ReadyAgain(d, "c", KEEP_ONE);
    ghost var files, current := d.files, d.current;
    var f := NO_FAULTS.(statAfter := true);
    r := d.Write("c", KEEP_ONE, f);
    AtLanded(files, current, d.files, d.current, "c", KEEP_ONE, f, r);
  }

  lemma OneMoreFile(files: Versions, current: Option<nat>, files': Versions, current': Option<nat>,
                    content: string, f: Faults, r: Outcome)
    requires WriteEffect(files, current, files', current', content, map[], f, r) && r.Landed()
    ensures files'.Keys == files.Keys + {r.version} && current' == Some(r.version)
  {
    hide NewText;
    hide MetaOk;
    hide SameAs;
    NoMeta();
  }

  lemma MiddlePruned(files: Versions, current: Option<nat>, files': Versions, current': Option<nat>,
                     content: string, f: Faults, r: Outcome)
    requires Linked(files, current) && current == Some(2) && files.Keys == {1, 2} && r.Committed?
    requires WriteEffect(files, current, files', current', content, KEEP_ONE, f, r)
    requires f == NO_FAULTS.(unseen := {1})
    ensures r.version == 3 && files'.Keys == {1, 3} && current' == Some(3) && !Linked(files', current')
    ensures files' == files[3 := NewText(files, 3, content, KEEP_ONE)] - {2}
    ensures Breaks(files, current, KEEP_ONE, f)
  {
    hide NewText;
    hide MetaOk;
    hide SameAs;
    hide Chained;
    hide Differ;
    KeepOne();
    NextAbove(files, current, r.version, false);
    assert IsHighest(files, 2);
    assert r.version == 3 && Doomed({1, 2, 3}, 2, f) == {2};
    assert files.Keys + {3} == {1, 2, 3};
    assert PrunedBy(files.Keys + {3}, 3, KEEP_ONE, f) == {2};
    WriteKeepsLinked(files, current, files', current', content, KEEP_ONE, f, r);
    assert 1 in files.Keys && 2 in files.Keys && SkipsBelow(files.Keys, 2, f);
  }

  // ---------- Facts the operations use ----------

  lemma NothingHappened(files: Versions, current: Option<nat>, content: string, meta: Meta, f: Faults)
    ensures forall r: Outcome :: !r.Landed() ==> WriteEffect(files, current, files, current, content, meta, f, r)
  {
  }

  lemma StillThere(files: Versions, current: Option<nat>, files': Versions, current': Option<nat>,
                   content: string, meta: Meta, f: Faults, r: Outcome)
    requires WriteEffect(files, current, files', current', content, meta, f, r) && !r.Landed()
    ensures files' == files && current' == current
  {
  }

  /** With working listings a write lands right above the version it was checked against. */
  lemma StaleOnly(files: Versions, current: Option<nat>, files': Versions, current': Option<nat>,
                  content: string, meta: Meta, f: Faults, r: Outcome, n: nat)
    requires WriteEffect(files, current, files', current', content, meta, f, r) && r.Landed()
    ensures Linked(files, current) && IsHighest(files, n) && !f.listing ==> r.version == n + 1
  {
    hide Linked;
    hide MetaOk;
    hide NewText;
    hide Doomed;
    if Linked(files, current) && IsHighest(files, n) && !f.listing {
      NextAbove(files, current, r.version, false);
      EmptyHighest(files, current);
    }
  }

  lemma EmptyHighest(files: Versions, current: Option<nat>)
    requires Linked(files, current)
    ensures current.None? ==> files == map[]
    ensures current.Some? ==> current.value in files && IsHighest(files, current.value)
  {
    hide Chained;
    hide Differ;
  }

  /** Being reported stale changes nothing on disk. */
  lemma StaleToo(files: Versions, current: Option<nat>, files': Versions, current': Option<nat>, content: string,
                 meta: Meta, f: Faults, version: nat, synced: bool, prune: Option<PruneResult>, stale: bool)
    requires WriteEffect(files, current, files', current', content, meta, f, Committed(version, synced, false, prune))
    ensures WriteEffect(files, current, files', current', content, meta, f, Committed(version, synced, stale, prune))
  {
    hide MetaOk;
    hide NewText;
    hide PrunedBy;
    hide SameAs;
    hide IsHighest;
  }

  // ---------- Verifying the chain ----------

  datatype ChainResult = Intact | NoHistory | Unreadable(version: nat) | Broken(version: nat) | Malformed(version: nat)

  predicate LinkOk(files: Versions, below: nat, v: nat)
    requires below in files && v in files
  {
    ExtractPreviousHash(files[v]) == ContentHash(files[below])
  }

  ghost predicate FormOk(files: Versions, v: nat)
    requires v in files
  {
    exists h :: Canonical(files[v], h) && h.version == v
  }

  ghost predicate LinksOk(files: Versions, versions: seq<nat>)
    requires forall v <- versions :: v in files
  {
    forall i :: 0 <= i < |versions| - 1 ==> LinkOk(files, versions[i], versions[i + 1])
  }

  /** Every listed version is canonical and hashes the listed one before it. */
  ghost predicate ChainOk(files: Versions, versions: seq<nat>)
    requires forall v <- versions :: v in files
  {
    LinksOk(files, versions) && forall v <- versions :: FormOk(files, v)
  }

  lemma LinksStep(files: Versions, versions: seq<nat>, v: nat)
    requires (forall u <- versions :: u in files) && v in files
    ensures LinksOk(files, versions + [v]) <==>
      LinksOk(files, versions) && (versions != [] ==> LinkOk(files, versions[|versions| - 1], v))
  {
    hide LinkOk;
    var all, n := versions + [v], |versions|;
    if LinksOk(files, all) {
      forall i | 0 <= i < n - 1 ensures LinkOk(files, versions[i], versions[i + 1]) {
        assert LinkOk(files, all[i], all[i + 1]);
        assert all[i] == versions[i] && all[i + 1] == versions[i + 1];
      }
      if n > 0 { assert LinkOk(files, all[n - 1], all[n - 1 + 1]); }
    }
  }

  lemma NoLinks(files: Versions)
    ensures LinksOk(files, [])
  {
  }

  lemma LinkIs(files: Versions, below: nat, v: nat)
    requires below in files && v in files
    ensures LinkOk(files, below, v) <==> ExtractPreviousHash(files[v]) == ContentHash(files[below])
    ensures ContentHash(files[below]) != ""
  {
  }

  lemma FormIs(files: Versions, v: nat, header: Result<Header>)
    requires v in files
    requires if header.Ok? then Canonical(files[v], header.value) else forall h :: !Canonical(files[v], h)
    ensures FormOk(files, v) <==> header.Ok? && header.value.version == v
  {
    hide Canonical;
    if header.Ok? { OneHeader(files[v], header.value); }
  }

  lemma OneHeader(stored: string, h: Header)
    requires Canonical(stored, h)
    ensures forall g :: Canonical(stored, g) ==> g == h
  {
    hide HeadLines;
    hide CanonicalFields;
    hide MetaOk;
    hide ReadHeader;
    forall g ensures Canonical(stored, g) ==> g == h {
      var lines := StoredLines(stored).value;
      CanonicalHeader(stored, g, lines);
      CanonicalHeader(stored, h, lines);
    }
  }

  /** A linked document's files pass, from whatever version retention left as the oldest. */
  lemma LinkedVerifies(files: Versions, current: Option<nat>, versions: seq<nat>)
    requires Linked(files, current) && InOrder(versions) && forall v :: v in versions <==> v in files
    ensures ChainOk(files, versions)
    ensures current.Some? ==> versions != []
  {
    hide Differ;
    hide Canonical;
    forall v <- versions ensures FormOk(files, v) { assert Chained(files, v); }
    forall i | 0 <= i < |versions| - 1 ensures LinkOk(files, versions[i], versions[i + 1]) {
      var u, v := versions[i], versions[i + 1];
      assert u in versions && v in versions;
      NextListed(files, current.value, versions, i);
      assert Chained(files, v);
      var h :| Canonical(files[v], h) && h.version == v && (v > 0 && v - 1 in files ==> h.previousHash == ContentHash(files[v - 1]));
      CanonicalFieldsRead(files[v], h);
    }
  }

  /** No two of the files' bytes share a hash. */
  ghost predicate NoCollision(files: Versions) {
    forall u <- files, v <- files :: Sum256(files[u]) == Sum256(files[v]) ==> files[u] == files[v]
  }

  /**
   * Unless the directory was taken for empty, chain verification notices exactly what a
   * landed write breaks, as long as no two of the versions involved share a hash.
   */
  lemma GapFound(files: Versions, current: Option<nat>, files': Versions, current': Option<nat>,
                 content: string, meta: Meta, f: Faults, r: Outcome, versions: seq<nat>)
    requires Linked(files, current) && WriteEffect(files, current, files', current', content, meta, f, r) && r.Landed()
    requires InOrder(versions) && (forall v :: v in versions <==> v in files') && !(current.Some? && f.listing)
    requires NoCollision(files[r.version := NewText(files, r.version, content, meta)])
    ensures LinksOk(files', versions) <==> !Breaks(files, current, meta, f)
    ensures ChainOk(files', versions) <==> !Breaks(files, current, meta, f)
  {
    hide NewText;
    hide SameAs;
    hide MetaOk;
    hide Breaks;
    hide Linked;
    hide PrunedBy;
    hide LinksOk;
    hide NoCollision;
    hide FormOk;
    var next := r.version;
    var now := files[next := NewText(files, next, content, meta)];
    WriteKeepsLinked(files, current, files', current', content, meta, f, r);
    if Linked(files', current') {
      LinkedVerifies(files', current', versions);
    } else {
      NextAbove(files, current, next, f.listing);
      SameAsParts(files, next, content, meta);
      CommitLinks(files, current, next, content, meta);
      NewestKept(files.Keys + {next}, next, meta, f);
      BrokenLink(now, files', next, versions);
    }
  }

  /** Where files were taken out of the middle of a chain, the hash on top of the hole does not match. */
  lemma BrokenLink(now: Versions, left: Versions, next: nat, versions: seq<nat>)
    requires Linked(now, Some(next)) && next in left && left.Keys <= now.Keys && (forall v <- left :: left[v] == now[v])
    requires !Linked(left, Some(next)) && NoCollision(now)
    requires InOrder(versions) && forall v :: v in versions <==> v in left
    ensures !LinksOk(left, versions)
  {
    hide Linked;
    hide NoCollision;
    hide LinkOk;
    hide InOrder;
    var v := Hole(now, left, next);
    var i := StepUp(versions, v, next);
    var w := versions[i + 1];
    HashAbove(now, next, v, w);
    LinkIs(left, v, w);
    assert !LinkOk(left, versions[i], versions[i + 1]);
  }

  /** Where an ascending list goes on from v towards a larger member. */
  lemma StepUp(versions: seq<nat>, v: nat, next: nat) returns (i: nat)
    requires InOrder(versions) && v in versions && next in versions && v < next
    ensures i + 1 < |versions| && versions[i] == v && v < versions[i + 1] <= next && versions[i + 1] in versions
  {
    i :| 0 <= i < |versions| && versions[i] == v;
    var j :| 0 <= j < |versions| && versions[j] == next;
    assert i < j;
  }

  lemma HashAbove(now: Versions, next: nat, v: nat, w: nat)
    requires Linked(now, Some(next)) && NoCollision(now) && v in now && w in now && v + 1 < w && w <= next
    ensures ExtractPreviousHash(now[w]) != ContentHash(now[v])
  {
    hide Chained;
    hide Differ;
    hide ExtractPreviousHash;
    hide ContentHash;
    hide NoCollision;
    UpTo(now, next, v, w - 1);
    HashOfMissing(now, v, w);
  }

  lemma UpTo(now: Versions, next: nat, v: nat, w: nat)
    requires Linked(now, Some(next)) && v in now && v <= w <= next
    ensures w in now
  {
    hide Chained;
    hide Differ;
    ConsecutiveUp(now, next, v, w);
  }

  /** A version that stays while the one above it went. */
  lemma Hole(now: Versions, left: Versions, next: nat) returns (v: nat)
    requires Linked(now, Some(next)) && next in left && left.Keys <= now.Keys && (forall v <- left :: left[v] == now[v])
    requires !Linked(left, Some(next))
    ensures v in left && v < next && v + 1 !in left
  {
    hide Linked;
    if forall v <- left :: v < next ==> v + 1 in left {
      StillLinked(now, left, next);
      assert false;
    }
    v :| v in left && v < next && v + 1 !in left;
  }

  lemma StillLinked(now: Versions, left: Versions, next: nat)
    requires Linked(now, Some(next)) && next in left && left.Keys <= now.Keys && (forall v <- left :: left[v] == now[v])
    requires forall v <- left :: v < next ==> v + 1 in left
    ensures Linked(left, Some(next))
  {
    hide Chained;
    hide Differ;
    forall v <- left ensures Chained(left, v) { ChainedBelow(now, left, v); }
  }

  lemma HashOfMissing(now: Versions, v: nat, w: nat)
    requires v in now && w in now && v + 1 < w && w - 1 in now && (forall u <- now :: Chained(now, u)) && NoCollision(now)
    ensures ExtractPreviousHash(now[w]) != ContentHash(now[v])
  {
    hide Canonical;
    hide ExtractPreviousHash;
    assert Chained(now, v) && Chained(now, w);
    var h :| Canonical(now[w], h) && h.version == w && h.previousHash == ContentHash(now[w - 1]);
    CanonicalFieldsRead(now[w], h);
    if ContentHash(now[w - 1]) == ContentHash(now[v]) {
      SameHash(now[w - 1], now[v]);
      var g :| Canonical(now[v], g) && g.version == v;
      OneHeader(now[v], g);
    }
  }

  lemma NextListed(files: Versions, current: nat, versions: seq<nat>, i: nat)
    requires Consecutive(files, Some(current)) && InOrder(versions) && (forall v :: v in versions <==> v in files)
    requires i < |versions| - 1
    ensures versions[i + 1] == versions[i] + 1 && versions[i] >= 1
  {
    var u := versions[i];
    assert u in versions && versions[i + 1] in versions;
    assert u < versions[i + 1] <= current;
    assert u + 1 in versions;
    var k :| 0 <= k < |versions| && versions[k] == u + 1;
  }

  /**
   * While SHA-256 has no collision on the bytes involved, the newest version's bytes pin
   * the whole history: two chains over the same versions that verify and agree on top are equal.
   */
  lemma {:induction false} ChainPinsHistory(a: Versions, b: Versions, versions: seq<nat>)
    requires (forall v <- versions :: v in a && v in b) && ChainOk(a, versions) && ChainOk(b, versions)
    requires versions != [] ==> a[versions[|versions| - 1]] == b[versions[|versions| - 1]]
    requires forall v <- versions :: Sum256(a[v]) == Sum256(b[v]) ==> a[v] == b[v]
    ensures forall v <- versions :: a[v] == b[v]
  {
    hide FormOk;
    hide LinkOk;
    if |versions| > 1 {
      var n := |versions| - 1;
      var front := versions[..n];
      var v, u := versions[n], versions[n - 1];
      assert v in versions && u in versions && forall w <- front :: w in versions;
      assert versions == front + [v] && front[|front| - 1] == u;
      LinksStep(a, front, v);
      LinksStep(b, front, v);
      LinkIs(a, u, v);
      LinkIs(b, u, v);
      SameHash(a[u], b[u]);
      ChainPinsHistory(a, b, front);
    }
  }

  lemma SameHash(x: string, y: string)
    requires ContentHash(x) == ContentHash(y)
    ensures Sum256(x) == Sum256(y)
  {
    ContentHashShape(x);
    ContentHashShape(y);
  }
}
