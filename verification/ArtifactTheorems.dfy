/** Build once, publish once: over every legal run of the archive, kills, reopens and power losses included. */
module ArtifactTheorems {
  import opened Wrappers
  import opened ArtifactDisk

  /** A newly initialised archive. */
  const EMPTY := Disk([], Dir(map[], map[]), Dir(map[], map[]), {}, {}, [], IDLE)

  lemma EmptyIsInv(sha: Bytes -> Digest)
    ensures Inv(sha, EMPTY)
  {
  }

  // ------------------------------------------------------- builder launches

  /** However often the archive is reopened, a key's builder is launched at most once. */
  lemma BuilderLaunchedAtMostOnce(sha: Bytes -> Digest, cmds: seq<Cmd>)
    requires Legal(sha, EMPTY, cmds)
    ensures Distinct(Run(EMPTY, cmds).launches)
  {
    EmptyIsInv(sha);
    RunKept(sha, EMPTY, cmds);
  }

  lemma LaunchesGrow(d: Disk, c: Cmd)
    ensures d.launches <= Apply(d, c).launches
  {
  }

  lemma {:induction false} LaunchesOnlyGrow(d: Disk, cmds: seq<Cmd>)
    ensures d.launches <= Run(d, cmds).launches
    decreases |cmds|
  {
    if cmds != [] {
      LaunchesOnlyGrow(d, cmds[..|cmds| - 1]);
      LaunchesGrow(Run(d, cmds[..|cmds| - 1]), cmds[|cmds| - 1]);
    }
  }

  /** Once launched, the key's reservation outlives everything: no later call can reserve it again. */
  lemma LaunchedStaysReserved(sha: Bytes -> Digest, d: Disk, cmds: seq<Cmd>, k: Key)
    requires Inv(sha, d) && k in d.launches && Legal(sha, d, cmds)
    ensures !Allowed(sha, Run(d, cmds), Mkdir(k)) && !Allowed(sha, Run(d, cmds), Launch(k))
  {
    RunKept(sha, d, cmds);
    LaunchesOnlyGrow(d, cmds);
  }

  // ------------------------------------------------------- records and their objects

  /** Every record in place has all its objects on durable storage with the recorded digests. */
  lemma RecordedObjectsAreDurable(sha: Bytes -> Digest, cmds: seq<Cmd>, k: Key, i: nat)
    requires Legal(sha, EMPTY, cmds) && k in Run(EMPTY, cmds).releases.visible
    ensures var d := Run(EMPTY, cmds);
            Describes(d, d.releases.visible[k], k) &&
            var release := d.files[d.releases.visible[k]].content.release;
            i < |release.parts| ==>
              release.parts[i] in d.objects.durable &&
              var f := d.objects.durable[release.parts[i]];
              Holds(sha, d, f, release.parts[i]) && d.files[f].synced
  {
    EmptyIsInv(sha);
    RunKept(sha, EMPTY, cmds);
    var d := Run(EMPTY, cmds);
    assert ReleaseOk(d, k);
    var release := d.files[d.releases.visible[k]].content.release;
    if i < |release.parts| { assert ObjectOk(sha, d, release.parts[i]); }
  }

  /** The record a key now has. */
  function Recorded(d: Disk, k: Key): Option<Release> {
    if k in d.releases.visible && Describes(d, d.releases.visible[k], k) then
      Some(d.files[d.releases.visible[k]].content.release)
    else None
  }

  lemma StepKeepsRecord(sha: Bytes -> Digest, d: Disk, c: Cmd, k: Key)
    requires Inv(sha, d) && Allowed(sha, d, c) && Recorded(d, k).Some? && (c.PowerLoss? ==> k in d.releases.durable)
    ensures Recorded(Apply(d, c), k) == Recorded(d, k) &&
            (k in d.releases.durable ==> k in Apply(d, c).releases.durable)
  {
    assert ReleaseOk(d, k);
  }

  /** A record never changes while the machine stays up; a durable one never changes at all. */
  lemma {:induction false} RecordNeverChanges(sha: Bytes -> Digest, d: Disk, cmds: seq<Cmd>, k: Key)
    requires Inv(sha, d) && Legal(sha, d, cmds) && Recorded(d, k).Some? && (Powered(cmds) || k in d.releases.durable)
    ensures Recorded(Run(d, cmds), k) == Recorded(d, k) &&
            (k in d.releases.durable ==> k in Run(d, cmds).releases.durable)
    decreases |cmds|
  {
    if cmds != [] {
      RecordNeverChanges(sha, d, cmds[..|cmds| - 1], k);
      RunKept(sha, d, cmds[..|cmds| - 1]);
      StepKeepsRecord(sha, Run(d, cmds[..|cmds| - 1]), cmds[|cmds| - 1], k);
    }
  }

  // ------------------------------------------------------- a record that was not synced

  lemma {:induction false} RunConcat(d: Disk, p: seq<Cmd>, q: seq<Cmd>)
    ensures Run(d, p + q) == Run(Run(d, p), q)
    decreases |q|
  {
    if q == [] {
      assert p + q == p;
    } else {
      RunConcat(d, p, q[..|q| - 1]);
      assert (p + q)[..|p + q| - 1] == p + q[..|q| - 1];
    }
  }

  lemma {:induction false} LegalConcat(sha: Bytes -> Digest, d: Disk, p: seq<Cmd>, q: seq<Cmd>)
    requires Legal(sha, d, p) && Legal(sha, Run(d, p), q)
    ensures Legal(sha, d, p + q) && Run(d, p + q) == Run(Run(d, p), q)
    decreases |q|
  {
    RunConcat(d, p, q);
    if q == [] {
      assert p + q == p;
    } else {
      LegalConcat(sha, d, p, q[..|q| - 1]);
      assert (p + q)[..|p + q| - 1] == p + q[..|q| - 1];
    }
  }

  lemma LegalOne(sha: Bytes -> Digest, d: Disk, c: Cmd)
    requires Allowed(sha, d, c)
    ensures Legal(sha, d, [c]) && Run(d, [c]) == Apply(d, c)
  {
    assert [c][..0] == [];
    assert Run(d, []) == d && Legal(sha, d, []);
  }

  lemma LegalThen(sha: Bytes -> Digest, d: Disk, p: seq<Cmd>, c: Cmd)
    requires Legal(sha, d, p) && Allowed(sha, Run(d, p), c)
    ensures Legal(sha, d, p + [c]) && Run(d, p + [c]) == Apply(Run(d, p), c)
  {
    LegalOne(sha, Run(d, p), c);
    LegalConcat(sha, d, p, [c]);
  }

  function Verifying(parts: seq<Digest>): seq<Cmd> {
    if parts == [] then [] else Verifying(parts[..|parts| - 1]) + [VerifyObject(parts[|parts| - 1])]
  }

  function Noted(d: Disk, seen: set<Digest>): Disk {
    d.(call := d.call.(verified := d.call.verified + seen))
  }

  function Set(parts: seq<Digest>): (r: set<Digest>)
    ensures forall i :: 0 <= i < |parts| ==> parts[i] in r
  {
    if parts == [] then {} else Set(parts[..|parts| - 1]) + {parts[|parts| - 1]}
  }

  lemma NotedThen(sha: Bytes -> Digest, d: Disk, seen: set<Digest>, digest: Digest)
    requires digest in d.objects.visible && Holds(sha, d, d.objects.visible[digest], digest)
    ensures Allowed(sha, Noted(d, seen), VerifyObject(digest)) &&
            Apply(Noted(d, seen), VerifyObject(digest)) == Noted(d, seen + {digest})
  {
    assert d.call.verified + (seen + {digest}) == (d.call.verified + seen) + {digest};
  }

  lemma VerifyingOneMore(sha: Bytes -> Digest, d: Disk, cmds: seq<Cmd>, seen: set<Digest>, digest: Digest)
    requires Legal(sha, d, cmds) && Run(d, cmds) == Noted(d, seen)
    requires digest in d.objects.visible && Holds(sha, d, d.objects.visible[digest], digest)
    ensures Legal(sha, d, cmds + [VerifyObject(digest)]) &&
            Run(d, cmds + [VerifyObject(digest)]) == Noted(d, seen + {digest})
  {
    NotedThen(sha, d, seen, digest);
    LegalThen(sha, d, cmds, VerifyObject(digest));
  }

  predicate InPlace(sha: Bytes -> Digest, d: Disk, parts: seq<Digest>) {
    forall i :: 0 <= i < |parts| ==>
      parts[i] in d.objects.visible &&
      Holds(sha, d, d.objects.visible[parts[i]], parts[i])
  }

  /** Checking objects that are in place. */
  lemma {:induction false} VerifyingIsLegal(sha: Bytes -> Digest, d: Disk, parts: seq<Digest>)
    requires InPlace(sha, d, parts)
    ensures Legal(sha, d, Verifying(parts)) && Run(d, Verifying(parts)) == Noted(d, Set(parts))
    decreases |parts|
  {
    if parts == [] {
      assert d.call.verified + {} == d.call.verified;
    } else {
      var init, last := parts[..|parts| - 1], parts[|parts| - 1];
      VerifyingIsLegal(sha, d, init);
      VerifyingOneMore(sha, d, Verifying(init), Set(init), last);
    }
  }

  /** A call that records a release whose objects are in place: settle the objects, publish the record. */
  function Settling(parts: seq<Digest>): seq<Cmd> {
    Verifying(parts) + [SyncObjects]
  }

  function Publishing(k: Key, f: nat, release: Release): seq<Cmd> {
    [Stage(Record(release))] + [SyncFile(f)] + [LinkRelease(k, f)]
  }

  lemma SettlingIsLegal(sha: Bytes -> Digest, d: Disk, parts: seq<Digest>)
    requires InPlace(sha, d, parts)
    ensures Legal(sha, d, Settling(parts)) && Run(d, Settling(parts)) == Apply(Noted(d, Set(parts)), SyncObjects)
  {
    VerifyingIsLegal(sha, d, parts);
    LegalThen(sha, d, Verifying(parts), SyncObjects);
  }

  lemma PublishingIsLegal(sha: Bytes -> Digest, d: Disk, k: Key, release: Release)
    requires release.key == k && k !in d.releases.visible
    requires forall i :: 0 <= i < |release.parts| ==> release.parts[i] in d.call.settled
    ensures Legal(sha, d, Publishing(k, |d.files|, release)) &&
            Recorded(Run(d, Publishing(k, |d.files|, release)), k) == Some(release)
  {
    var f := |d.files|;
    var written := d.(files := d.files + [File(Record(release), false)]);
    var staged := d.(files := d.files + [File(Record(release), true)]);
    LegalOne(sha, d, Stage(Record(release)));
    assert Apply(written, SyncFile(f)) == staged;
    LegalThen(sha, d, [Stage(Record(release))], SyncFile(f));
    LinkingRecords(sha, staged, k, f, release);
    LegalThen(sha, d, [Stage(Record(release))] + [SyncFile(f)], LinkRelease(k, f));
  }

  function Recording(d: Disk, k: Key, release: Release): seq<Cmd> {
    Settling(release.parts) + Publishing(k, |d.files|, release)
  }

  lemma RecordingIsLegal(sha: Bytes -> Digest, d: Disk, k: Key, release: Release)
    requires InPlace(sha, d, release.parts) && release.key == k && k !in d.releases.visible
    ensures Legal(sha, d, Recording(d, k, release)) && Recorded(Run(d, Recording(d, k, release)), k) == Some(release)
  {
    SettlingIsLegal(sha, d, release.parts);
    PublishingIsLegal(sha, Run(d, Settling(release.parts)), k, release);
    LegalConcat(sha, d, Settling(release.parts), Publishing(k, |d.files|, release));
  }

  lemma LinkingRecords(sha: Bytes -> Digest, d: Disk, k: Key, f: nat, release: Release)
    requires f < |d.files| && d.files[f] == File(Record(release), true) && release.key == k && k !in d.releases.visible
    requires forall i :: 0 <= i < |release.parts| ==> release.parts[i] in d.call.settled
    ensures Allowed(sha, d, LinkRelease(k, f)) && Recorded(Apply(d, LinkRelease(k, f)), k) == Some(release)
  {
  }

  function Blank(f: nat): Content {
    Blob([])
  }

  /** Power loss takes the unsynced link; the next call then records another release for the key. */
  function Rerecording(d: Disk, k: Key, release: Release): seq<Cmd> {
    var lost := PowerLoss({}, {}, {}, Blank);
    [lost] + Recording(Apply(d, lost), k, release)
  }

  lemma RerecordingIsLegal(sha: Bytes -> Digest, d: Disk, k: Key, release: Release)
    requires Inv(sha, d) && k !in d.releases.durable && release.key == k
    requires forall i :: 0 <= i < |release.parts| ==> release.parts[i] in d.objects.durable
    ensures Legal(sha, d, Rerecording(d, k, release)) &&
            Recorded(Run(d, Rerecording(d, k, release)), k) == Some(release)
  {
    var lost: Cmd := PowerLoss({}, {}, {}, Blank);
    var e := Apply(d, lost);
    LegalOne(sha, d, lost);
    ObjectsKept(sha, d, lost);
    assert forall i :: 0 <= i < |release.parts| ==> ObjectOk(sha, e, release.parts[i]);
    RecordingIsLegal(sha, e, k, release);
    LegalConcat(sha, d, [lost], Recording(e, k, release));
  }

  ghost predicate SurvivesEverything(sha: Bytes -> Digest, d: Disk, k: Key) {
    forall cmds :: Legal(sha, d, cmds) ==> Recorded(Run(d, cmds), k) == Recorded(d, k)
  }

  /** A record that can be read stays what it is through every later run exactly when its link has been
      synced. A call that finds the record of an interrupted publication reports it without syncing it. */
  lemma RecordSurvivesIff(sha: Bytes -> Digest, d: Disk, k: Key)
    requires Inv(sha, d) && Recorded(d, k).Some?
    ensures SurvivesEverything(sha, d, k) <==> k in d.releases.durable
  {
    if k in d.releases.durable {
      forall cmds | Legal(sha, d, cmds)
        ensures Recorded(Run(d, cmds), k) == Recorded(d, k)
      {
        RecordNeverChanges(sha, d, cmds, k);
      }
    } else {
      var release := Recorded(d, k).value;
      UnsyncedRecordCanChange(sha, d, k, release.recipe + "x");
    }
  }

  /** The failing family: any visible, unsynced record can come back with any other recipe. */
  lemma UnsyncedRecordCanChange(sha: Bytes -> Digest, d: Disk, k: Key, recipe: Digest)
    requires Inv(sha, d) && Recorded(d, k).Some? && k !in d.releases.durable
    ensures var other := Recorded(d, k).value.(recipe := recipe);
            Legal(sha, d, Rerecording(d, k, other)) && Recorded(Run(d, Rerecording(d, k, other)), k) == Some(other)
  {
    assert ReleaseOk(d, k);
    RerecordingIsLegal(sha, d, k, Recorded(d, k).value.(recipe := recipe));
  }
}
