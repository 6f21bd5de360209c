/** BuildOnce and Record, command by command (internal/computeimage/artifact_build.go, artifact_archive.go). */
module ArtifactArchive {
  import opened Wrappers
  import opened ArtifactDisk
  import opened ArtifactTheorems

  const MAX_RELEASES: nat := 4096
  const SPLIT := "split"

  datatype Error = Invalid | Unavailable | Conflict | Incomplete | BuildFailed

  datatype Answer = Ok(release: Release, existing: bool) | Err(error: Error)

  /** How many parts an artifact format has. */
  function Roles(format: string): nat {
    if format == SPLIT then 2 else if format == "unified" then 1 else 0
  }

  /** A split image has two parts, a unified one a single part. */
  predicate Parted(format: string, n: nat) {
    (format == "split" && n == 2) || (format == "unified" && n == 1)
  }

  /** What an undisturbed Record answers: a new release needs room, a known one must be the same. */
  predicate Recordable(d: Disk, release: Release) {
    match Recorded(d, release.key)
    case None => |d.releases.visible| < MAX_RELEASES
    case Some(found) => found == release
  }

  /** What an undisturbed BuildOnce succeeds on: a split release of this recipe, or a key never tried for which the
      builder leaves two parts of an unchanged recipe. */
  predicate Buildable(d: Disk, k: Key, recipe: Digest, outputs: Option<seq<Bytes>>, frozen: bool) {
    match Recorded(d, k)
    case None =>
      |d.releases.visible| < MAX_RELEASES && k !in d.attempts && outputs.Some? && |outputs.value| == 2 && frozen
    case Some(found) => found.recipe == recipe && found.format == "split"
  }

  lemma StepKept(sha: Bytes -> Digest, d: Disk, c: Cmd)
    requires Inv(sha, d) && Allowed(sha, d, c)
    ensures Inv(sha, Apply(d, c))
  {
    AttemptsKept(sha, d, c);
    ObjectsKept(sha, d, c);
    ReleasesKept(sha, d, c);
  }

  /** Under the invariant every release file is a readable record of its own key. */
  lemma VisibleIsRecorded(sha: Bytes -> Digest, d: Disk, k: Key)
    requires Inv(sha, d)
    ensures k in d.releases.visible <==> Recorded(d, k).Some?
    ensures Recorded(d, k).Some? ==> Recorded(d, k).value.key == k && InPlace(sha, d, Recorded(d, k).value.parts)
  {
    assert ReleaseOk(d, k);
    if Recorded(d, k).Some? {
      var parts := Recorded(d, k).value.parts;
      forall i | 0 <= i < |parts|
        ensures parts[i] in d.objects.visible && Holds(sha, d, d.objects.visible[parts[i]], parts[i])
      {
        assert parts[i] in d.objects.durable && ObjectOk(sha, d, parts[i]);
      }
    }
  }

  function Digests(sha: Bytes -> Digest, sources: seq<Bytes>): seq<Digest> {
    seq(|sources|, i requires 0 <= i < |sources| => sha(sources[i]))
  }

  /** The staged copies of the sources, from file `base` on. */
  predicate Staged(d: Disk, base: nat, sources: seq<Bytes>) {
    base + |sources| <= |d.files| && forall i :: 0 <= i < |sources| ==> d.files[base + i].content == Blob(sources[i])
  }

  predicate SyncedTo(d: Disk, base: nat, n: nat) {
    base + n <= |d.files| && forall f :: base <= f < base + n ==> d.files[f].synced
  }

  /** Everything recording leaves alone. */
  predicate SameBuilds(a: Disk, b: Disk) {
    b.attempts == a.attempts && b.launches == a.launches
  }

  /** Files are added; no content changes. */
  predicate KeepsContents(a: Disk, b: Disk) {
    |a.files| <= |b.files| && forall f :: 0 <= f < |a.files| ==> b.files[f].content == a.files[f].content
  }

  lemma SyncStep(before: Disk, d: Disk, base: nat, sources: seq<Bytes>, i: nat)
    requires i < |sources| && Staged(d, base, sources) && SyncedTo(d, base, i) && KeepsContents(before, d)
    ensures var t := d.(files := d.files[base + i := d.files[base + i].(synced := true)]);
            Staged(t, base, sources) && SyncedTo(t, base, i + 1) && KeepsContents(before, t)
  {
  }

  /** The last command syncs the releases. A process killed just before it leaves the record
      for all to read, and no more of it durable than `before`. */
  predicate Interruptible(start: Disk, done: seq<Cmd>, release: Release, before: map<Key, nat>) {
    done != [] && done[|done| - 1].SyncReleases? &&
    var killed := Run(start, done[..|done| - 1]);
    Recorded(killed, release.key) == Some(release) && killed.releases.durable == before
  }

  class Archive {
    const sha: Bytes -> Digest
    const fails: nat -> bool
    var disk: Disk
    var clock: nat
    ghost const start: Disk
    ghost var done: seq<Cmd>

    /** No system call fails. */
    ghost predicate Smooth() {
      forall n :: !fails(n)
    }

    /** What the session did so far was legal, command by command, with the machine up. */
    ghost predicate Valid()
      reads this
    {
      Legal(sha, start, done) && disk == Run(start, done) && Powered(done)
    }

    constructor (sha: Bytes -> Digest, fails: nat -> bool, d: Disk)
      ensures Valid() && start == d && disk == Apply(d, Begin) && this.sha == sha
    {
      this.sha, this.fails, clock := sha, fails, 0;
      disk := d.(call := IDLE);
      start, done := d, [Begin];
      new;
      LegalOne(sha, d, Begin);
    }

    /** One command reaching the disk. */
    method Do(c: Cmd)
      requires Valid() && Allowed(sha, disk, c) && !c.PowerLoss?
      modifies this`disk, this`done
      ensures Valid() && disk == Apply(old(disk), c) && done == old(done) + [c]
      ensures Inv(sha, old(disk)) ==> Inv(sha, disk)
    {
      if Inv(sha, disk) { StepKept(sha, disk, c); }
      disk := Apply(disk, c);
      LegalThen(sha, start, done, c);
      done := done + [c];
    }

    /** Whether the next system call fails. */
    method Fails() returns (failed: bool)
      modifies this`clock
      ensures Smooth() ==> !failed
    {
      failed := fails(clock);
      clock := clock + 1;
    }

    // ----------------------------------------------------- recording

    method StageAll(sources: seq<Bytes>) returns (base: nat)
      requires Valid()
      modifies this
      ensures Valid() && old(done) <= done && Staged(disk, base, sources) && disk == old(disk).(files := disk.files)
      ensures KeepsContents(old(disk), disk) && (Inv(sha, old(disk)) ==> Inv(sha, disk))
    {
      base := |disk.files|;
      var i := 0;
      while i < |sources|
        invariant i <= |sources| && Valid() && old(done) <= done && disk == old(disk).(files := disk.files)
        invariant Inv(sha, old(disk)) ==> Inv(sha, disk)
        invariant |disk.files| == base + i && Staged(disk, base, sources[..i]) && KeepsContents(old(disk), disk)
      {
        Do(Stage(Blob(sources[i])));
        i := i + 1;
      }
      assert sources[..i] == sources;
    }

    method SyncOne(f: nat)
      requires Valid() && f < |disk.files|
      modifies this`disk, this`done
      ensures Valid() && done == old(done) + [SyncFile(f)]
      ensures disk == old(disk).(files := old(disk.files)[f := old(disk.files)[f].(synced := true)])
      ensures Inv(sha, old(disk)) ==> Inv(sha, disk)
    {
      Do(SyncFile(f));
    }

    method SyncAll(base: nat, sources: seq<Bytes>) returns (ok: bool)
      requires Valid() && Staged(disk, base, sources)
      modifies this
      ensures Valid() && old(done) <= done && Staged(disk, base, sources) && disk == old(disk).(files := disk.files)
      ensures KeepsContents(old(disk), disk) && (ok ==> SyncedTo(disk, base, |sources|))
      ensures (Inv(sha, old(disk)) ==> Inv(sha, disk)) && (Smooth() ==> ok)
    {
      var i := 0;
      while i < |sources|
        invariant i <= |sources| && Valid() && old(done) <= done && disk == old(disk).(files := disk.files)
        invariant Staged(disk, base, sources) && SyncedTo(disk, base, i) && KeepsContents(old(disk), disk)
        invariant Inv(sha, old(disk)) ==> Inv(sha, disk)
      {
        var failed := Fails();
        if failed { return false; }
        SyncStep(old(disk), disk, base, sources, i);
        SyncOne(base + i);
        i := i + 1;
      }
      ok := true;
    }

    /** Give a part its content name unless it has one, and check what stands there. */
    method LinkOne(digest: Digest, f: nat) returns (ok: bool)
      requires Valid() && Holds(sha, disk, f, digest) && disk.files[f].synced
      modifies this
      ensures Valid() && old(done) <= done && disk == old(disk).(objects := disk.objects, call := disk.call)
      ensures old(disk.call.verified) <= disk.call.verified && (ok ==> digest in disk.call.verified)
      ensures Inv(sha, old(disk)) ==> Inv(sha, disk) && (Smooth() ==> ok)
    {
      assert Inv(sha, disk) ==> ObjectOk(sha, disk, digest);
      var failed := Fails();
      if failed { return false; }
      if digest !in disk.objects.visible { Do(LinkObject(digest, f)); }
      if !Holds(sha, disk, disk.objects.visible[digest], digest) { return false; }
      Do(VerifyObject(digest));
      ok := true;
    }

    method LinkAll(base: nat, sources: seq<Bytes>) returns (ok: bool)
      requires Valid() && Staged(disk, base, sources) && SyncedTo(disk, base, |sources|)
      modifies this
      ensures Valid() && old(done) <= done
      ensures disk == old(disk).(objects := disk.objects, call := disk.call)
      ensures ok ==> forall i :: 0 <= i < |sources| ==> sha(sources[i]) in disk.call.verified
      ensures Inv(sha, old(disk)) ==> Inv(sha, disk) && (Smooth() ==> ok)
    {
      var i := 0;
      while i < |sources|
        invariant i <= |sources| && Valid() && old(done) <= done &&
                  disk == old(disk).(objects := disk.objects, call := disk.call)
        invariant forall j :: 0 <= j < i ==> sha(sources[j]) in disk.call.verified
        invariant Inv(sha, old(disk)) ==> Inv(sha, disk)
      {
        ok := LinkOne(sha(sources[i]), base + i);
        if !ok { return; }
        i := i + 1;
      }
      ok := true;
    }

    method SettleObjects(base: nat, sources: seq<Bytes>) returns (ok: bool)
      requires Valid() && Staged(disk, base, sources) && SyncedTo(disk, base, |sources|)
      modifies this
      ensures Valid() && old(done) <= done
      ensures disk == old(disk).(objects := disk.objects, call := disk.call)
      ensures ok ==> forall i :: 0 <= i < |sources| ==> sha(sources[i]) in disk.call.settled
      ensures Inv(sha, old(disk)) ==> Inv(sha, disk) && (Smooth() ==> ok)
    {
      ok := LinkAll(base, sources);
      if !ok { return; }
      var failed := Fails();
      if failed { return false; }
      Do(SyncObjects);
    }

    /** A complete, synced copy of a record under a temporary name. */
    method StageRecord(release: Release) returns (f: Option<nat>)
      requires Valid()
      modifies this
      ensures Valid() && old(done) <= done && disk == old(disk).(files := disk.files)
      ensures f.Some? ==> f.value < |disk.files| && disk.files[f.value] == File(Record(release), true)
      ensures (Inv(sha, old(disk)) ==> Inv(sha, disk)) && (Smooth() ==> f.Some?)
    {
      var failed := Fails();
      if failed { return None; }
      Do(Stage(Record(release)));
      failed := Fails();
      if failed { return None; }
      Do(SyncFile(|disk.files| - 1));
      f := Some(|disk.files| - 1);
    }

    /** Publish a record without ever replacing one. */
    method PublishRelease(release: Release) returns (error: Option<Error>)
      requires Valid() && forall i :: 0 <= i < |release.parts| ==> release.parts[i] in disk.call.settled
      modifies this
      ensures Valid() && old(done) <= done && SameBuilds(old(disk), disk) && disk.call == old(disk.call)
      ensures error.None? ==> Recorded(disk, release.key) == Some(release) && release.key in disk.releases.durable
      ensures error.None? ==> Interruptible(start, done, release, old(disk.releases.durable))
      ensures (Inv(sha, old(disk)) ==> Inv(sha, disk)) && error != Some(Invalid)
      ensures Smooth() && release.key !in old(disk.releases.visible) ==> error.None?
    {
      var f := StageRecord(release);
      if f.None? { return Some(Unavailable); }
      if release.key in disk.releases.visible {
        if Recorded(disk, release.key) != Some(release) { return Some(Conflict); }
      } else {
        var failed := Fails();
        if failed { return Some(Unavailable); }
        LinkingRecords(sha, disk, release.key, f.value, release);
        Do(LinkRelease(release.key, f.value));
      }
      var failed := Fails();
      if failed { return Some(Unavailable); }
      ghost var linked := done;
      Do(SyncReleases);
      assert done[..|done| - 1] == linked;
      error := None;
    }

    method RecordLocked(k: Key, valid: bool, recipe: Digest, format: string, sources: seq<Bytes>) returns (r: Answer)
      requires Valid()
      modifies this
      ensures Valid() && old(done) <= done && SameBuilds(old(disk), disk)
      ensures r.Ok? ==>
        r.release == Release(k, recipe, format, Digests(sha, sources)) && Recorded(disk, k) == Some(r.release) &&
        (forall i :: 0 <= i < |sources| ==> sha(sources[i]) in disk.call.settled) &&
        (r.existing <==> Recorded(old(disk), k).Some?) && (!r.existing ==> k in disk.releases.durable)
      ensures r.Ok? && !r.existing ==> Interruptible(start, done, r.release, old(disk.releases.durable))
      ensures r.Ok? && r.existing ==> disk.releases == old(disk.releases)
      ensures Inv(sha, old(disk)) ==> Inv(sha, disk)
      ensures r == Err(Invalid) <==> !valid || !Parted(format, |sources|)
      ensures Smooth() && Inv(sha, old(disk)) && valid && Parted(format, |sources|) ==>
                var release := Release(k, recipe, format, Digests(sha, sources));
                && (r.Ok? <==> Recordable(old(disk), release))
                && (r == Err(Conflict) <==> Recorded(old(disk), k) !in {None, Some(release)})
    {
      if Inv(sha, disk) { VisibleIsRecorded(sha, disk, k); }
      if !valid || |sources| != Roles(format) || |sources| == 0 { return Err(Invalid); }
      var failed := Fails();
      if failed { return Err(Unavailable); }
      var before := Recorded(disk, k);
      if before.None? && (k in disk.releases.visible || |disk.releases.visible| >= MAX_RELEASES) {
        return Err(Unavailable);
      }
      if before.Some? && (before.value.recipe != recipe || before.value.format != format) { return Err(Conflict); }
      var base := StageAll(sources);
      var release := Release(k, recipe, format, Digests(sha, sources));
      if before.Some? && before.value != release { return Err(Conflict); }
      var ok := SyncAll(base, sources);
      if !ok { return Err(Unavailable); }
      ok := SettleObjects(base, sources);
      if !ok { return Err(Unavailable); }
      if before.None? {
        var error := PublishRelease(release);
        if error.Some? { return Err(error.value); }
        assert forall i :: 0 <= i < |sources| ==> release.parts[i] == sha(sources[i]);
      }
      r := Ok(release, before.Some?);
    }

    // ----------------------------------------------------- building

    /** Every object of a record is in place with the recorded digest. */
    method VerifyRelease(release: Release) returns (ok: bool)
      ensures ok <==> InPlace(sha, disk, release.parts)
    {
      var i := 0;
      while i < |release.parts|
        invariant i <= |release.parts| && InPlace(sha, disk, release.parts[..i])
      {
        var digest := release.parts[i];
        if digest !in disk.objects.visible || !Holds(sha, disk, disk.objects.visible[digest], digest) { return false; }
        i := i + 1;
      }
      assert release.parts[..i] == release.parts;
      ok := true;
    }

    /** Reserve the key's build directory and make the reservation durable. */
    method Reserve(k: Key) returns (error: Option<Error>)
      requires Valid()
      modifies this
      ensures Valid() && old(done) <= done && disk.launches == old(disk.launches) && disk.releases == old(disk.releases)
      ensures old(disk.attempts) <= disk.attempts && (k in old(disk.attempts) ==> error.Some? && disk == old(disk))
      ensures error.None? ==> k in disk.attempts && Allowed(sha, disk, Launch(k))
      ensures (Inv(sha, old(disk)) ==> Inv(sha, disk)) && (Smooth() && k !in old(disk.attempts) ==> error.None?)
      ensures (error == Some(Incomplete) <==> k in old(disk.attempts)) && error != Some(Invalid)
      ensures disk.objects == old(disk.objects) && disk.files == old(disk.files)
    {
      if k in disk.attempts { return Some(Incomplete); }
      var failed := Fails();
      if failed { return Some(Unavailable); }
      Do(Mkdir(k));
      failed := Fails();
      if failed { return Some(Unavailable); }
      Do(SyncRoot);
      error := None;
    }

    /** Build a revision that has no record, once. `outputs` is what the builder leaves, None when it fails;
        `frozen` whether the recipe it was given is still what was reserved. */
    method BuildOnce(k: Key, valid: bool, recipe: Digest, outputs: Option<seq<Bytes>>, frozen: bool) returns (r: Answer)
      requires Valid()
      modifies this
      ensures Valid() && old(done) <= done
      ensures disk.launches == old(disk.launches) || disk.launches == old(disk.launches) + [k]
      ensures k in old(disk.attempts) || k in old(disk.releases.visible) ==> disk.launches == old(disk.launches)
      ensures disk.launches != old(disk.launches) ==> k in disk.attempts
      ensures r.Ok? && r.existing ==>
                Recorded(old(disk), k) == Some(r.release) && disk == old(disk) &&
                r.release.recipe == recipe && InPlace(sha, disk, r.release.parts)
      ensures r.Ok? && !r.existing ==>
        outputs.Some? && r.release == Release(k, recipe, SPLIT, Digests(sha, outputs.value)) &&
        Recorded(disk, k) == Some(r.release) &&
        k in disk.releases.durable && disk.launches == old(disk.launches) + [k] && |outputs.value| == 2
      ensures Inv(sha, old(disk)) ==> Inv(sha, disk)
      ensures Smooth() && Inv(sha, old(disk)) ==>
                && (r.Ok? <==> valid && Buildable(old(disk), k, recipe, outputs, frozen))
                && (r.Ok? ==> (r.existing <==> Recorded(old(disk), k).Some?))
                && (r == Err(Incomplete) <==>
                      && valid && Recorded(old(disk), k).None? && |old(disk.releases.visible)| < MAX_RELEASES
                      && k in old(disk.attempts))
    {
      if Inv(sha, disk) { VisibleIsRecorded(sha, disk, k); }
      if !valid { return Err(Invalid); }
      var failed := Fails();
      if failed { return Err(Unavailable); }
      var before := Recorded(disk, k);
      if before.Some? {
        if before.value.recipe != recipe || before.value.format != SPLIT { return Err(Conflict); }
        var intact := VerifyRelease(before.value);
        return if intact then Ok(before.value, true) else Err(Unavailable);
      }
      if k in disk.releases.visible || |disk.releases.visible| >= MAX_RELEASES { return Err(Unavailable); }
      var error := Reserve(k);
      if error.Some? { return Err(error.value); }
      Do(Launch(k));
      if outputs.None? { return Err(BuildFailed); }
      if !frozen { return Err(Unavailable); }
      assert Recorded(disk, k).None?;
      r := RecordLocked(k, valid, recipe, SPLIT, outputs.value);
    }
  }
}
