/**
 The bounded, content-addressed audio spool (crates/voicetext-gateway/src/storage/spool.rs).

 A directory holds artifacts named by job and digest, and one identity claim per job. Every
 operation runs under the spool's mutation lock, which one process holds, so one process owns the
 directory; a crash or an I/O error can cut an operation between any two changes. The digest function is a parameter: nothing
 here depends on which one it is.
 */
module BatchSpool {
  import opened Base
  import opened BatchDomain
  import opened BatchLedger

  datatype Limits = Limits(upload: nat, total: nat)

  type Artifacts = map<Handle, Bytes>

  datatype Directory = Directory(artifacts: Artifacts, claims: map<JobId, Digest>)

  datatype StoreOutcome =
    | Stored(handle: Handle)
    | Existing(handle: Handle)
    | CapacityExceeded
    | IdentityConflict
    | Unavailable

  /**
   Where a crash or an I/O error cut an operation short: nowhere, before it changed anything, between
   the artifact and the claim, or after both. A store that meets a conflicting claim ignores a failure
   to take its artifact back.
   */
  datatype Cut = Whole | BeforeArtifact | AfterArtifact | AfterClaim | CleanupFails

  // ---- aggregate size ----------------------------------------------------------------------

  ghost function TotalBytes(artifacts: Artifacts): nat
    decreases |artifacts|
  {
    if artifacts == map[] then 0
    else
      var handle :| handle in artifacts;
      assert |artifacts - {handle}| < |artifacts| by { SmallerWithout(artifacts, handle); }
      |artifacts[handle]| + TotalBytes(artifacts - {handle})
  }

  lemma {:induction false} SmallerWithout(artifacts: Artifacts, handle: Handle)
    requires handle in artifacts
    ensures |artifacts - {handle}| == |artifacts| - 1
  {
  }

  /** The total does not depend on the order in which the directory is read. */
  lemma {:induction false} TotalWithout(artifacts: Artifacts, handle: Handle)
    requires handle in artifacts
    ensures TotalBytes(artifacts) == |artifacts[handle]| + TotalBytes(artifacts - {handle})
    decreases |artifacts|
  {
    var first :| first in artifacts && TotalBytes(artifacts) == |artifacts[first]| + TotalBytes(artifacts - {first});
    if first != handle {
      SmallerWithout(artifacts, first);
      SmallerWithout(artifacts, handle);
      TotalWithout(artifacts - {first}, handle);
      TotalWithout(artifacts - {handle}, first);
      assert artifacts - {first} - {handle} == artifacts - {handle} - {first};
    }
  }

  lemma {:induction false} TotalWith(artifacts: Artifacts, handle: Handle, audio: Bytes)
    requires handle !in artifacts
    ensures TotalBytes(artifacts[handle := audio]) == TotalBytes(artifacts) + |audio|
  {
    TotalWithout(artifacts[handle := audio], handle);
    assert artifacts[handle := audio] - {handle} == artifacts;
  }

  lemma {:induction false} TotalAfterRemoval(artifacts: Artifacts, handle: Handle)
    ensures TotalBytes(artifacts - {handle}) <= TotalBytes(artifacts)
  {
    if handle in artifacts {
      TotalWithout(artifacts, handle);
    } else {
      assert artifacts - {handle} == artifacts;
    }
  }

  // ---- operations --------------------------------------------------------------------------

  predicate Readable(hash: Bytes -> Digest, limits: Limits, artifacts: Artifacts, handle: Handle) {
    && handle in artifacts
    && 0 < |artifacts[handle]| <= limits.upload
    && hash(artifacts[handle]) == handle.digest
  }

  ghost function Store(hash: Bytes -> Digest, limits: Limits, directory: Directory,
                       id: JobId, audio: Bytes, cut: Cut): (Directory, StoreOutcome)
  {
    if |audio| == 0 || |audio| > limits.upload then
      (directory, CapacityExceeded)
    else
      var handle := Handle(id, hash(audio));
      var created := handle !in directory.artifacts;
      if created && TotalBytes(directory.artifacts) + |audio| > limits.total then
        (directory, CapacityExceeded)
      else if cut.BeforeArtifact? then
        (directory, Unavailable)
      else if !created && !Readable(hash, limits, directory.artifacts, handle) then
        (directory, Unavailable)
      else
        var written := directory.(artifacts := if created then directory.artifacts[handle := audio] else directory.artifacts);
        if cut.AfterArtifact? then
          (written, Unavailable)
        else if id in directory.claims && directory.claims[id] != handle.digest then
          (if cut.CleanupFails? then written else directory, IdentityConflict)
        else if cut.AfterClaim? then
          (written.(claims := directory.claims[id := handle.digest]), Unavailable)
        else
          (written.(claims := directory.claims[id := handle.digest]),
           if created then StoreOutcome.Stored(handle) else StoreOutcome.Existing(handle))
  }

  function Remove(directory: Directory, handle: Handle, cut: Cut): Directory {
    if cut.BeforeArtifact? then directory
    else Directory(
      directory.artifacts - {handle},
      if !cut.AfterArtifact? && handle.job in directory.claims && directory.claims[handle.job] == handle.digest
      then directory.claims - {handle.job} else directory.claims)
  }

  // ---- what every history of operations keeps ------------------------------------------------

  datatype Operation =
    | StoreAudio(id: JobId, audio: Bytes, storeCut: Cut)
    | RemoveAudio(handle: Handle, removeCut: Cut)

  ghost function Perform(hash: Bytes -> Digest, limits: Limits, directory: Directory, op: Operation): Directory {
    match op
    case StoreAudio(id, audio, cut) => Store(hash, limits, directory, id, audio, cut).0
    case RemoveAudio(handle, cut) => Remove(directory, handle, cut)
  }

  ghost function History(hash: Bytes -> Digest, limits: Limits, ops: seq<Operation>): Directory {
    if ops == [] then Directory(map[], map[])
    else Perform(hash, limits, History(hash, limits, ops[..|ops| - 1]), ops[|ops| - 1])
  }

  /** Within quota, and every artifact is the non-empty bounded content its name says it is. */
  ghost predicate Sound(hash: Bytes -> Digest, limits: Limits, directory: Directory) {
    && TotalBytes(directory.artifacts) <= limits.total
    && (forall handle :: handle in directory.artifacts ==> Readable(hash, limits, directory.artifacts, handle))
  }

  lemma {:induction false} StoreKeepsSound(hash: Bytes -> Digest, limits: Limits, directory: Directory, id: JobId, audio: Bytes, cut: Cut)
    requires Sound(hash, limits, directory)
    ensures Sound(hash, limits, Store(hash, limits, directory, id, audio, cut).0)
    ensures Store(hash, limits, directory, id, audio, cut).1.IdentityConflict? && !cut.CleanupFails? ==>
              Store(hash, limits, directory, id, audio, cut).0 == directory
  {
    var handle := Handle(id, hash(audio));
    if handle !in directory.artifacts {
      TotalWith(directory.artifacts, handle, audio);
    }
  }

  lemma {:induction false} RemoveKeepsSound(hash: Bytes -> Digest, limits: Limits, directory: Directory, handle: Handle, cut: Cut)
    requires Sound(hash, limits, directory)
    ensures Sound(hash, limits, Remove(directory, handle, cut))
  {
    TotalAfterRemoval(directory.artifacts, handle);
  }

  /** Quota and content addressing survive every sequence of whole and interrupted operations. */
  lemma {:induction false} HistoryIsSound(hash: Bytes -> Digest, limits: Limits, ops: seq<Operation>)
    ensures Sound(hash, limits, History(hash, limits, ops))
  {
    if ops == [] {
      assert TotalBytes(map[]) == 0;
    } else {
      var before := History(hash, limits, ops[..|ops| - 1]);
      HistoryIsSound(hash, limits, ops[..|ops| - 1]);
      match ops[|ops| - 1]
      case StoreAudio(id, audio, cut) => StoreKeepsSound(hash, limits, before, id, audio, cut);
      case RemoveAudio(handle, cut) => RemoveKeepsSound(hash, limits, before, handle, cut);
    }
  }

  /** An artifact leaves the directory only through a removal of its own handle. */
  lemma {:induction false} ArtifactStays(hash: Bytes -> Digest, limits: Limits, earlier: seq<Operation>, later: seq<Operation>, handle: Handle)
    requires handle in History(hash, limits, earlier).artifacts
    requires forall i :: 0 <= i < |later| && later[i].RemoveAudio? ==> later[i].handle != handle
    ensures handle in History(hash, limits, earlier + later).artifacts
    ensures History(hash, limits, earlier + later).artifacts[handle] == History(hash, limits, earlier).artifacts[handle]
    decreases |later|
  {
    if later == [] {
      assert earlier + later == earlier;
    } else {
      var init := later[..|later| - 1];
      ArtifactStays(hash, limits, earlier, init, handle);
      assert (earlier + later)[..|earlier + later| - 1] == earlier + init;
      assert (earlier + later)[|earlier + later| - 1] == later[|later| - 1];
    }
  }

  /** Between removals, at most one of the stores of the same content is told that it owns the artifact. */
  lemma {:induction false} AtMostOneOwner(hash: Bytes -> Digest, limits: Limits, earlier: seq<Operation>, between: seq<Operation>,
                       id: JobId, first: Bytes, second: Bytes)
    requires hash(first) == hash(second)
    requires forall i :: 0 <= i < |between| && between[i].RemoveAudio? ==> between[i].handle != Handle(id, hash(first))
    requires Store(hash, limits, History(hash, limits, earlier), id, first, Whole).1.Stored?
    ensures !Store(hash, limits, History(hash, limits, earlier + [StoreAudio(id, first, Whole)] + between), id, second, Whole).1.Stored?
  {
    var op := StoreAudio(id, first, Whole);
    assert (earlier + [op])[..|earlier|] == earlier;
    ArtifactStays(hash, limits, earlier + [op], between, Handle(id, hash(first)));
  }

  /** Removing what a store created for an unclaimed job undoes the store, so other audio can be stored for it again. */
  lemma {:induction false} RemoveUndoesStore(hash: Bytes -> Digest, limits: Limits, directory: Directory, id: JobId, audio: Bytes)
    requires Store(hash, limits, directory, id, audio, Whole).1.Stored? && id !in directory.claims
    ensures var (stored, outcome) := Store(hash, limits, directory, id, audio, Whole);
            Remove(stored, outcome.handle, Whole) == directory
  {
    var handle := Handle(id, hash(audio));
    assert directory.artifacts[handle := audio] - {handle} == directory.artifacts;
    assert directory.claims[id := handle.digest] - {id} == directory.claims;
  }

  /** A store that ran whole leaves the audio under its digest and the job claimed for it; a second digest is refused. */
  lemma {:induction false} StoreClaims(hash: Bytes -> Digest, limits: Limits, directory: Directory, id: JobId, audio: Bytes, other: Bytes)
    requires Sound(hash, limits, directory) && 0 < |audio| <= limits.upload
    requires TotalBytes(directory.artifacts) + |audio| <= limits.total
    requires id in directory.claims ==> directory.claims[id] == hash(audio)
    ensures var (stored, outcome) := Store(hash, limits, directory, id, audio, Whole);
            && (outcome == StoreOutcome.Stored(Handle(id, hash(audio))) || outcome == StoreOutcome.Existing(Handle(id, hash(audio))))
            && (outcome.Stored? <==> Handle(id, hash(audio)) !in directory.artifacts)
            && Handle(id, hash(audio)) in stored.artifacts && id in stored.claims && stored.claims[id] == hash(audio)
            && (hash(other) != hash(audio) ==>
                  !Store(hash, limits, stored, id, other, Whole).1.Stored? && !Store(hash, limits, stored, id, other, Whole).1.Existing?)
  {
  }

  // ---- the object the gateway uses -----------------------------------------------------------

  class DurableFileSpool {
    const hash: Bytes -> Digest
    const limits: Limits
    var directory: Directory

    constructor (hash: Bytes -> Digest, limits: Limits)
      ensures this.hash == hash && this.limits == limits && directory == Directory(map[], map[])
      ensures Sound(hash, limits, directory)
    {
      this.hash := hash;
      this.limits := limits;
      directory := Directory(map[], map[]);
      assert TotalBytes(map[]) == 0;
    }

    /** Adds up the artifacts in whatever order the directory lists them. */
    method SpoolAudioBytes() returns (total: nat)
      ensures total == TotalBytes(directory.artifacts)
    {
      total := 0;
      var rest := directory.artifacts;
      while rest != map[]
        invariant total + TotalBytes(rest) == TotalBytes(directory.artifacts)
        decreases |rest|
      {
        var handle :| handle in rest;
        TotalWithout(rest, handle);
        SmallerWithout(rest, handle);
        total := total + |rest[handle]|;
        rest := rest - {handle};
      }
    }

    method StoreBlocking(id: JobId, audio: Bytes, cut: Cut) returns (outcome: StoreOutcome)
      requires Sound(hash, limits, directory)
      modifies this`directory
      ensures (directory, outcome) == Store(hash, limits, old(directory), id, audio, cut)
      ensures Sound(hash, limits, directory)
      ensures cut.Whole? && !outcome.Stored? && !outcome.Existing? ==> directory == old(directory)
      ensures id in old(directory).claims && old(directory).claims[id] != hash(audio) ==> !outcome.Stored? && !outcome.Existing?
    {
      StoreKeepsSound(hash, limits, directory, id, audio, cut);
      if |audio| == 0 || |audio| > limits.upload {
        return CapacityExceeded;
      }
      var handle := Handle(id, hash(audio));
      var created := handle !in directory.artifacts;
      if created {
        var used := SpoolAudioBytes();
        if used + |audio| > limits.total {
          return CapacityExceeded;
        }
      }
      if cut.BeforeArtifact? {
        return Unavailable;
      }
      if created {
        directory := directory.(artifacts := directory.artifacts[handle := audio]);
      } else if !Readable(hash, limits, directory.artifacts, handle) {
        return Unavailable;
      }
      if cut.AfterArtifact? {
        return Unavailable;
      }
      if id !in directory.claims {
        directory := directory.(claims := directory.claims[id := handle.digest]);
      } else if directory.claims[id] != handle.digest {
        if created && !cut.CleanupFails? {
          directory := directory.(artifacts := directory.artifacts - {handle});
          assert directory.artifacts == old(directory).artifacts;
        }
        return IdentityConflict;
      } else {
        assert directory.claims[id := handle.digest] == directory.claims;
      }
      if cut.AfterClaim? {
        return Unavailable;
      }
      outcome := if created then StoreOutcome.Stored(handle) else StoreOutcome.Existing(handle);
    }

    method RemoveBlocking(handle: Handle, cut: Cut) returns (removed: bool)
      requires Sound(hash, limits, directory)
      modifies this`directory
      ensures directory == Remove(old(directory), handle, cut)
      ensures removed <==> handle in old(directory).artifacts && !cut.BeforeArtifact?
      ensures Sound(hash, limits, directory)
    {
      RemoveKeepsSound(hash, limits, directory, handle, cut);
      if cut.BeforeArtifact? {
        return false;
      }
      removed := handle in directory.artifacts;
      directory := directory.(artifacts := directory.artifacts - {handle});
      if cut.AfterArtifact? {
        return;
      }
      if handle.job in directory.claims && directory.claims[handle.job] == handle.digest {
        directory := directory.(claims := directory.claims - {handle.job});
      }
    }

    method ReadBlocking(handle: Handle) returns (audio: Option<Bytes>)
      requires Sound(hash, limits, directory)
      ensures audio.Some? <==> handle in directory.artifacts
      ensures audio.Some? ==> hash(audio.value) == handle.digest && 0 < |audio.value| <= limits.upload
    {
      if !Readable(hash, limits, directory.artifacts, handle) {
        return None;
      }
      audio := Some(directory.artifacts[handle]);
    }
  }
}
