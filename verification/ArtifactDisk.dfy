/** The image archive on disk: what may be linked when, and what survives
    (internal/computeimage/artifact_archive.go, artifact_build.go). */
module ArtifactDisk {
  import opened Wrappers

  type Digest = string
  type Bytes = seq<nat>

  /** A revision and the target it is built for; a release file name stands for exactly one of these. */
  datatype Key = Key(reference: string, target: string)

  datatype Release = Release(key: Key, recipe: Digest, format: string, parts: seq<Digest>)

  datatype Content = Blob(bytes: Bytes) | Record(release: Release)

  /** A file and whether its content has been synced. */
  datatype File = File(content: Content, synced: bool)

  /** A directory: the links now visible, and the links a power loss cannot take. */
  datatype Dir<!K> = Dir(visible: map<K, nat>, durable: map<K, nat>)

  /** What the running call has established itself. */
  datatype Call = Call(reserved: Option<Key>, firm: bool, verified: set<Digest>, settled: set<Digest>)

  const IDLE := Call(None, false, {}, {})

  /** `attempts` are the build directories, `fixed` those a power loss cannot take;
      `launches` is every builder launch ever made, in order. */
  datatype Disk = Disk(files: seq<File>, objects: Dir<Digest>, releases: Dir<Key>,
                       attempts: set<Key>, fixed: set<Key>, launches: seq<Key>, call: Call)

  datatype Cmd =
    | Begin
    | Stage(content: Content)
    | SyncFile(f: nat)
    | LinkObject(digest: Digest, f: nat)
    | VerifyObject(digest: Digest)
    | SyncObjects
    | LinkRelease(key: Key, f: nat)
    | SyncReleases
    | Mkdir(key: Key)
    | SyncRoot
    | Launch(key: Key)
    | PowerLoss(objects: set<Digest>, releases: set<Key>, attempts: set<Key>, garbled: nat -> Content)

  // ------------------------------------------------------- commands

  predicate Holds(sha: Bytes -> Digest, d: Disk, f: nat, digest: Digest) {
    f < |d.files| && d.files[f].content.Blob? && sha(d.files[f].content.bytes) == digest
  }

  predicate Describes(d: Disk, f: nat, k: Key) {
    f < |d.files| && d.files[f].content.Record? && d.files[f].content.release.key == k
  }

  /** What the archive's code has checked, or the filesystem refuses, before the command takes effect. */
  predicate Allowed(sha: Bytes -> Digest, d: Disk, c: Cmd) {
    match c
    case SyncFile(f) => f < |d.files|
    case LinkObject(digest, f) => digest !in d.objects.visible && Holds(sha, d, f, digest) && d.files[f].synced
    case VerifyObject(digest) => digest in d.objects.visible && Holds(sha, d, d.objects.visible[digest], digest)
    case LinkRelease(k, f) =>
      k !in d.releases.visible && Describes(d, f, k) && d.files[f].synced &&
      forall i :: 0 <= i < |d.files[f].content.release.parts| ==> d.files[f].content.release.parts[i] in d.call.settled
    case Mkdir(k) => k !in d.attempts
    case Launch(k) => d.call.reserved == Some(k) && d.call.firm
    case _ => true
  }

  function Lost<K>(dir: Dir<K>, kept: set<K>): Dir<K> {
    var left := map k | k in dir.visible && (k in dir.durable || k in kept) :: dir.visible[k];
    Dir(left, left)
  }

  function Apply(d: Disk, c: Cmd): Disk {
    match c
    case Begin => d.(call := IDLE)
    case Stage(content) => d.(files := d.files + [File(content, false)])
    case SyncFile(f) => if f < |d.files| then d.(files := d.files[f := d.files[f].(synced := true)]) else d
    case LinkObject(digest, f) => d.(objects := d.objects.(visible := d.objects.visible[digest := f]))
    case VerifyObject(digest) => d.(call := d.call.(verified := d.call.verified + {digest}))
    case SyncObjects =>
      d.(objects := Dir(d.objects.visible, d.objects.visible), call := d.call.(settled := d.call.verified))
    case LinkRelease(k, f) => d.(releases := d.releases.(visible := d.releases.visible[k := f]))
    case SyncReleases => d.(releases := Dir(d.releases.visible, d.releases.visible))
    case Mkdir(k) => d.(attempts := d.attempts + {k}, call := d.call.(reserved := Some(k), firm := false))
    case SyncRoot => d.(fixed := d.attempts, call := d.call.(firm := true))
    case Launch(k) => d.(launches := d.launches + [k], call := d.call.(reserved := None, firm := false))
    case PowerLoss(objects, releases, attempts, garbled) =>
      var left := d.fixed + (attempts * d.attempts);
      Disk(seq(|d.files|, f requires 0 <= f < |d.files| =>
             if d.files[f].synced then d.files[f] else File(garbled(f), true)),
           Lost(d.objects, objects), Lost(d.releases, releases), left, left, d.launches, IDLE)
  }

  function Run(d: Disk, cmds: seq<Cmd>): Disk {
    if cmds == [] then d else Apply(Run(d, cmds[..|cmds| - 1]), cmds[|cmds| - 1])
  }

  /** Every command was allowed when it ran. A killed process is a run that stops early and goes on with Begin. */
  predicate Legal(sha: Bytes -> Digest, d: Disk, cmds: seq<Cmd>) {
    cmds == [] || (Legal(sha, d, cmds[..|cmds| - 1]) && Allowed(sha, Run(d, cmds[..|cmds| - 1]), cmds[|cmds| - 1]))
  }

  predicate Powered(cmds: seq<Cmd>) {
    forall i :: 0 <= i < |cmds| ==> !cmds[i].PowerLoss?
  }

  // ------------------------------------------------------- the invariant

  predicate Nested<K>(dir: Dir<K>) {
    forall k :: k in dir.durable ==> k in dir.visible && dir.visible[k] == dir.durable[k]
  }

  predicate ObjectOk(sha: Bytes -> Digest, d: Disk, digest: Digest) {
    digest in d.objects.visible ==>
      Holds(sha, d, d.objects.visible[digest], digest) &&
      d.files[d.objects.visible[digest]].synced
  }

  /** A record in place: complete, for its own key, and with every object beyond the reach of a power loss. */
  predicate ReleaseOk(d: Disk, k: Key) {
    k in d.releases.visible ==>
      var f := d.releases.visible[k];
      Describes(d, f, k) && d.files[f].synced &&
      forall i :: 0 <= i < |d.files[f].content.release.parts| ==>
        d.files[f].content.release.parts[i] in d.objects.durable
  }

  predicate Distinct(launches: seq<Key>) {
    forall i, j :: 0 <= i < j < |launches| ==> launches[i] != launches[j]
  }

  predicate AttemptsOk(d: Disk) {
    d.fixed <= d.attempts && Distinct(d.launches) && (forall i :: 0 <= i < |d.launches| ==> d.launches[i] in d.fixed) &&
    (d.call.reserved.Some? ==> d.call.reserved.value in d.attempts && d.call.reserved.value !in d.launches &&
                               (d.call.firm ==> d.call.reserved.value in d.fixed))
  }

  predicate CallOk(d: Disk) {
    d.call.verified <= d.objects.visible.Keys && d.call.settled <= d.objects.durable.Keys
  }

  ghost predicate Inv(sha: Bytes -> Digest, d: Disk) {
    Nested(d.objects) && Nested(d.releases) && (forall x :: ObjectOk(sha, d, x)) && (forall k :: ReleaseOk(d, k)) &&
    AttemptsOk(d) && CallOk(d)
  }

  lemma AttemptsKept(sha: Bytes -> Digest, d: Disk, c: Cmd)
    requires Inv(sha, d) && Allowed(sha, d, c)
    ensures AttemptsOk(Apply(d, c))
  {
  }

  lemma ObjectsKept(sha: Bytes -> Digest, d: Disk, c: Cmd)
    requires Inv(sha, d) && Allowed(sha, d, c)
    ensures var t := Apply(d, c);
            Nested(t.objects) && CallOk(t) && forall x :: ObjectOk(sha, t, x)
  {
    var t := Apply(d, c);
    forall x
      ensures ObjectOk(sha, t, x)
    {
      assert ObjectOk(sha, d, x);
    }
  }

  lemma ReleasesKept(sha: Bytes -> Digest, d: Disk, c: Cmd)
    requires Inv(sha, d) && Allowed(sha, d, c)
    ensures var t := Apply(d, c);
            Nested(t.releases) && forall k :: ReleaseOk(t, k)
  {
    var t := Apply(d, c);
    forall k
      ensures ReleaseOk(t, k)
    {
      assert ReleaseOk(d, k);
    }
  }

  lemma {:induction false} RunKept(sha: Bytes -> Digest, d: Disk, cmds: seq<Cmd>)
    requires Inv(sha, d) && Legal(sha, d, cmds)
    ensures Inv(sha, Run(d, cmds))
    decreases |cmds|
  {
    if cmds != [] {
      var before := Run(d, cmds[..|cmds| - 1]);
      RunKept(sha, d, cmds[..|cmds| - 1]);
      AttemptsKept(sha, before, cmds[|cmds| - 1]);
      ObjectsKept(sha, before, cmds[|cmds| - 1]);
      ReleasesKept(sha, before, cmds[|cmds| - 1]);
    }
  }
}
