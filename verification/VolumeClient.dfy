/** The client's Create and attachVolume as they run between other clients' steps
    (internal/computeclient/client.go, volumes.go). */
module VolumeClient {
  import opened Wrappers
  import opened VolumeAttach

  /** The outside of one Create call: what the others do before each command, whether the daemon
      carries the command out, and whether the client sees it succeed. */
  datatype Env = Env(rivals: nat -> seq<Step>, lands: nat -> bool, replies: nat -> bool)

  predicate Touches(step: Step, k: nat) {
    (step.RunInit? || step.RunCheck? || step.RunAttach? || step.RunConfirm? || step.RunWithdraw? || step.Abandon?) &&
      step.k == k
  }

  /** Orderly steps of other calls. */
  predicate Foreign(k: nat, steps: seq<Step>) {
    Orderly(steps) && forall i :: 0 <= i < |steps| ==> !Touches(steps[i], k)
  }

  ghost predicate Rivals(env: Env, k: nat) {
    forall c :: Foreign(k, env.rivals(c))
  }

  /** Nobody interferes and nothing fails. */
  ghost predicate Calm(env: Env) {
    forall c :: env.rivals(c) == [] && env.lands(c) && env.replies(c)
  }

  // ------------------------------------------------------- runs

  lemma ForeignStepSpares(s: Sys, k: nat, step: Step)
    requires k < |s.attempts| && !Touches(step, k)
    ensures k < |Next(s, step).attempts| && Next(s, step).attempts[k] == s.attempts[k]
  {
  }

  lemma {:induction false} ForeignRunSpares(s: Sys, k: nat, steps: seq<Step>)
    requires k < |s.attempts| && Foreign(k, steps)
    ensures k < |Run(s, steps).attempts| && Run(s, steps).attempts[k] == s.attempts[k]
    decreases |steps|
  {
    if steps != [] {
      ForeignRunSpares(s, k, steps[..|steps| - 1]);
      ForeignStepSpares(Run(s, steps[..|steps| - 1]), k, steps[|steps| - 1]);
    }
  }

  // ------------------------------------------------------- the daemon

  class Daemon {
    var sys: Sys

    constructor (s: Sys)
      ensures sys == s
    {
      sys := s;
    }

    method Others(steps: seq<Step>)
      modifies this
      ensures sys == Run(old(sys), steps)
    {
      var i := 0;
      while i < |steps|
        invariant i <= |steps| && sys == Run(old(sys), steps[..i])
      {
        assert steps[..i + 1][..i] == steps[..i];
        sys := Next(sys, steps[i]);
        i := i + 1;
      }
      assert steps[..i] == steps;
    }

    method FindVolume(v: Volume) returns (users: Option<set<Name>>)
      ensures users == if v in sys.attached then Some(sys.attached[v]) else None
    {
      users := if v in sys.attached then Some(sys.attached[v]) else None;
    }

    method AttachDevice(name: Name, v: Volume, lands: bool) returns (done: bool)
      modifies this
      ensures done <==> lands && name in old(sys).instances && v in old(sys).attached
      ensures sys == if done then WithUsers(old(sys), v, Users(old(sys), v) + {name}) else old(sys)
    {
      done := lands && name in sys.instances && v in sys.attached;
      if done { sys := sys.(attached := sys.attached[v := sys.attached[v] + {name}]); }
    }

    method RemoveDevice(name: Name, v: Volume, lands: bool)
      modifies this
      ensures sys == if !lands || v !in old(sys).attached then old(sys)
                     else WithUsers(old(sys), v, Users(old(sys), v) - {name})
    {
      if lands && v in sys.attached { sys := sys.(attached := sys.attached[v := sys.attached[v] - {name}]); }
    }

    /** The call's own progress. */
    method Record(k: nat, a: Attempt)
      requires k < |sys.attempts|
      modifies this
      ensures sys == Put(old(sys), k, a)
    {
      sys := sys.(attempts := sys.attempts[k := a]);
    }
  }

  // ------------------------------------------------------- attachVolume

  /** The call `k` is about to attach its next mount. */
  predicate Attaching(s: Sys, k: nat) {
    k < |s.attempts| && s.attempts[k].phase == Check && s.attempts[k].index < |s.attempts[k].mounts|
  }

  /** Check: refuse a volume that is missing or in use. */
  method CheckFree(d: Daemon, k: nat, env: Env, c: nat) returns (ok: bool, ghost steps: seq<Step>)
    requires Attaching(d.sys, k) && Rivals(env, k)
    modifies d
    ensures Orderly(steps) && d.sys == Run(old(d.sys), steps)
    ensures k < |d.sys.attempts| && d.sys.attempts[k] == old(d.sys.attempts[k]).(phase := if ok then Attach else Failed)
    ensures Calm(env) ==>
              var v := old(d.sys.attempts[k]).mounts[old(d.sys.attempts[k]).index];
              && d.sys == old(d.sys).(attempts := d.sys.attempts)
              && (ok <==> v in d.sys.attached && d.sys.attached[v] == {})
  {
    var a := d.sys.attempts[k];
    var v := a.mounts[a.index];
    ForeignRunSpares(d.sys, k, env.rivals(c));
    d.Others(env.rivals(c));
    var users := d.FindVolume(v);
    ok := env.replies(c) && users.Some? && users.value == {};
    d.Record(k, a.(phase := if ok then Attach else Failed));
    steps := env.rivals(c) + [RunCheck(k, env.replies(c))];
    RunSnoc(old(d.sys), env.rivals(c), RunCheck(k, env.replies(c)));
  }

  method AttachChecked(d: Daemon, k: nat, env: Env, c: nat) returns (ok: bool, ghost steps: seq<Step>)
    requires k < |d.sys.attempts| && d.sys.attempts[k].phase == Attach &&
             d.sys.attempts[k].index < |d.sys.attempts[k].mounts|
    requires Rivals(env, k)
    modifies d
    ensures Orderly(steps) && d.sys == Run(old(d.sys), steps)
    ensures k < |d.sys.attempts| &&
            d.sys.attempts[k] == old(d.sys.attempts[k]).(phase := if ok then Confirm else Failed)
    ensures Calm(env) ==>
              var a, before := old(d.sys.attempts[k]), old(d.sys);
              var v := a.mounts[a.index];
              && (ok <==> a.name in before.instances && v in before.attached)
              && (ok ==> d.sys == WithUsers(before, v, Users(before, v) + {a.name}).(attempts := d.sys.attempts))
  {
    var a := d.sys.attempts[k];
    ForeignRunSpares(d.sys, k, env.rivals(c));
    d.Others(env.rivals(c));
    var done := d.AttachDevice(a.name, a.mounts[a.index], env.lands(c));
    ok := done && env.replies(c);
    d.Record(k, a.(phase := if ok then Confirm else Failed));
    steps := env.rivals(c) + [RunAttach(k, env.lands(c), env.replies(c))];
    RunSnoc(old(d.sys), env.rivals(c), RunAttach(k, env.lands(c), env.replies(c)));
  }

  /** Confirm: keep the volume only as its sole user. On success the listing showed exactly that. */
  method ConfirmSole(d: Daemon, k: nat, env: Env, c: nat) returns (ok: bool, ghost steps: seq<Step>)
    requires k < |d.sys.attempts| && d.sys.attempts[k].phase == Confirm &&
             d.sys.attempts[k].index < |d.sys.attempts[k].mounts|
    requires Rivals(env, k)
    modifies d
    ensures Orderly(steps) && d.sys == Run(old(d.sys), steps) && k < |d.sys.attempts|
    ensures var a := old(d.sys.attempts[k]);
            d.sys.attempts[k] == (if ok then Advance(a.(index := a.index + 1)) else a.(phase := Failed)) &&
            (ok ==> Users(d.sys, a.mounts[a.index]) == {a.name})
    ensures Calm(env) ==>
              var a, before := old(d.sys.attempts[k]), old(d.sys);
              && (ok <==> Users(before, a.mounts[a.index]) == {a.name})
              && (ok ==> d.sys == before.(attempts := d.sys.attempts))
  {
    var a := d.sys.attempts[k];
    var v := a.mounts[a.index];
    ForeignRunSpares(d.sys, k, env.rivals(c));
    d.Others(env.rivals(c));
    var users := d.FindVolume(v);
    steps := env.rivals(c) + [RunConfirm(k, env.replies(c))];
    RunSnoc(old(d.sys), env.rivals(c), RunConfirm(k, env.replies(c)));
    if !env.replies(c) {
      ok := false;
      d.Record(k, a.(phase := Failed));
    } else if users.None? || users.value != {a.name} {
      ok := false;
      d.Record(k, a.(phase := Withdraw));
      ghost var more := env.rivals(c + 1) + [RunWithdraw(k, env.lands(c + 1))];
      WithdrawShared(d, k, env, c + 1);
      RunConcat(old(d.sys), steps, more);
      steps := steps + more;
    } else {
      ok := true;
      d.Record(k, Advance(a.(index := a.index + 1)));
    }
  }

  method WithdrawShared(d: Daemon, k: nat, env: Env, c: nat)
    requires k < |d.sys.attempts| && d.sys.attempts[k].phase == Withdraw &&
             d.sys.attempts[k].index < |d.sys.attempts[k].mounts|
    requires Rivals(env, k)
    modifies d
    ensures d.sys == Run(old(d.sys), env.rivals(c) + [RunWithdraw(k, env.lands(c))])
    ensures k < |d.sys.attempts| && d.sys.attempts[k] == old(d.sys.attempts[k]).(phase := Failed)
  {
    var a := d.sys.attempts[k];
    ForeignRunSpares(d.sys, k, env.rivals(c));
    d.Others(env.rivals(c));
    d.RemoveDevice(a.name, a.mounts[a.index], env.lands(c));
    d.Record(k, a.(phase := Failed));
    RunSnoc(old(d.sys), env.rivals(c), RunWithdraw(k, env.lands(c)));
  }

  method AttachVolume(d: Daemon, k: nat, env: Env, c: nat) returns (ok: bool, ghost steps: seq<Step>)
    requires Attaching(d.sys, k) && Rivals(env, k)
    modifies d
    ensures Orderly(steps) && d.sys == Run(old(d.sys), steps) && k < |d.sys.attempts|
    ensures var a := old(d.sys.attempts[k]);
            d.sys.attempts[k] == (if ok then Advance(a.(index := a.index + 1)) else a.(phase := Failed)) &&
            (ok ==> Users(d.sys, a.mounts[a.index]) == {a.name})
    ensures Calm(env) ==>
              var a, before := old(d.sys.attempts[k]), old(d.sys);
              var v := a.mounts[a.index];
              && (ok <==> a.name in before.instances && v in before.attached && before.attached[v] == {})
              && (ok ==> d.sys == WithUsers(before, v, {a.name}).(attempts := d.sys.attempts))
  {
    ok, steps := CheckFree(d, k, env, c);
    if !ok { return; }
    ghost var more;
    ok, more := AttachChecked(d, k, env, c + 1);
    RunConcat(old(d.sys), steps, more);
    steps := steps + more;
    if !ok { return; }
    ok, more := ConfirmSole(d, k, env, c + 2);
    RunConcat(old(d.sys), steps, more);
    steps := steps + more;
  }

  /** Every one of the volumes exists and has no user. */
  predicate CanTake(s: Sys, mounts: seq<Volume>) {
    forall i :: 0 <= i < |mounts| ==> mounts[i] in s.attached && s.attached[mounts[i]] == {}
  }

  predicate CanHave(s: Sys, name: Name, mounts: seq<Volume>) {
    name !in s.instances && CanTake(s, mounts)
  }

  /** The instance is now the only user of its mounts; the other volumes are as they were. */
  predicate Takes(s: Sys, t: Sys, name: Name, mounts: seq<Volume>) {
    && t.attached.Keys == s.attached.Keys
    && forall v :: v in s.attached ==> t.attached[v] == if v in mounts then {name} else s.attached[v]
  }

  /** Create, after its arguments are validated: init, then each mount in turn.
      It is one run of the system, orderly and therefore safe, and it reports success
      exactly when every mount was confirmed. Undisturbed, it succeeds exactly when the
      name is free and every volume is, and the instance then has just those volumes. */
  method Create(d: Daemon, name: Name, mounts: seq<Volume>, env: Env) returns (ok: bool, ghost steps: seq<Step>)
    requires Distinct(mounts) && Rivals(env, |d.sys.attempts|)
    modifies d
    ensures Orderly(steps) && d.sys == Run(old(d.sys), steps)
    ensures var k := |old(d.sys).attempts|;
            k < |d.sys.attempts| && d.sys.attempts[k].name == name && d.sys.attempts[k].mounts == mounts &&
            d.sys.attempts[k].phase == (if ok then Succeeded else Failed) &&
            (ok ==> d.sys.attempts[k].index == |mounts|)
    ensures Inv(old(d.sys)) ==> Inv(d.sys) && OneWriter(d.sys)
    ensures Calm(env) ==> (ok <==> CanHave(old(d.sys), name, mounts))
    ensures Calm(env) && ok ==> d.sys.instances == old(d.sys).instances[name := |old(d.sys).attempts|]
    ensures Calm(env) && ok ==> Takes(old(d.sys), d.sys, name, mounts)
  {
    ok, steps := CreateSteps(d, name, mounts, env);
    if Inv(old(d.sys)) { CreateKeepsOneWriter(old(d.sys), steps); }
  }

  /** One mount more: it can be taken exactly if it could be at the start. */
  lemma TakesOneMore(s: Sys, t: Sys, name: Name, mounts: seq<Volume>, i: nat)
    requires Distinct(mounts) && i < |mounts| && CanTake(s, mounts[..i]) && Takes(s, t, name, mounts[..i])
    ensures var v := mounts[i];
            && (CanTake(s, mounts[..i + 1]) <==> v in t.attached && t.attached[v] == {})
            && (v in t.attached ==> Takes(s, WithUsers(t, v, {name}), name, mounts[..i + 1]))
            && (CanTake(s, mounts) ==> CanTake(s, mounts[..i + 1]))
  {
    assert mounts[i] !in mounts[..i];
    assert mounts[..i + 1] == mounts[..i] + [mounts[i]];
    if CanTake(s, mounts) { assert forall j :: 0 <= j < i + 1 ==> mounts[..i + 1][j] == mounts[j]; }
  }

  method CreateSteps(d: Daemon, name: Name, mounts: seq<Volume>, env: Env) returns (ok: bool, ghost steps: seq<Step>)
    requires Distinct(mounts) && Rivals(env, |d.sys.attempts|)
    modifies d
    ensures Orderly(steps) && d.sys == Run(old(d.sys), steps)
    ensures var k := |old(d.sys).attempts|;
            k < |d.sys.attempts| && d.sys.attempts[k].name == name && d.sys.attempts[k].mounts == mounts &&
            d.sys.attempts[k].phase == (if ok then Succeeded else Failed) &&
            (ok ==> d.sys.attempts[k].index == |mounts|)
    ensures Calm(env) ==> (ok <==> CanHave(old(d.sys), name, mounts))
    ensures Calm(env) && ok ==> d.sys.instances == old(d.sys).instances[name := |old(d.sys).attempts|]
    ensures Calm(env) && ok ==> Takes(old(d.sys), d.sys, name, mounts)
  {
    var k := |d.sys.attempts|;
    ghost var more;
    ok, steps := RunInitCommand(d, name, mounts, env);
    if !ok { return; }
    var i := 0;
    while i < |mounts|
      invariant i <= |mounts| && Orderly(steps) && d.sys == Run(old(d.sys), steps) && k < |d.sys.attempts|
      invariant d.sys.attempts[k] == Advance(Attempt(name, mounts, i, Init))
      invariant Calm(env) ==> name !in old(d.sys).instances && d.sys.instances == old(d.sys).instances[name := k]
      invariant Calm(env) ==> CanTake(old(d.sys), mounts[..i]) && Takes(old(d.sys), d.sys, name, mounts[..i])
    {
      ghost var before := d.sys;
      ok, more := AttachVolume(d, k, env, 4 * i + 1);
      RunConcat(old(d.sys), steps, more);
      steps := steps + more;
      if Calm(env) { TakesOneMore(old(d.sys), before, name, mounts, i); }
      if !ok { return; }
      i := i + 1;
    }
    assert mounts[..i] == mounts;
    ok := true;
  }

  method RunInitCommand(d: Daemon, name: Name, mounts: seq<Volume>, env: Env) returns (ok: bool, ghost steps: seq<Step>)
    requires Distinct(mounts) && Rivals(env, |d.sys.attempts|)
    modifies d
    ensures Orderly(steps) && d.sys == Run(old(d.sys), steps)
    ensures var k, a := |old(d.sys).attempts|, Attempt(name, mounts, 0, Init);
            k < |d.sys.attempts| && d.sys.attempts[k] == if ok then Advance(a) else a.(phase := Failed)
    ensures Calm(env) ==>
              var before, k := old(d.sys), |old(d.sys).attempts|;
              && (ok <==> name !in before.instances)
              && (ok ==> d.sys == Sys(before.instances[name := k], before.attached, d.sys.attempts))
  {
    var k, a := |d.sys.attempts|, Attempt(name, mounts, 0, Init);
    d.sys := d.sys.(attempts := d.sys.attempts + [a]);
    ghost var begun := d.sys;
    assert Run(old(d.sys), []) == old(d.sys);
    RunSnoc(old(d.sys), [], Begin(name, mounts));
    steps := [Begin(name, mounts)];
    assert [] + [Begin(name, mounts)] == steps;
    ForeignRunSpares(d.sys, k, env.rivals(0));
    d.Others(env.rivals(0));
    var lands := env.lands(0) && name !in d.sys.instances;
    if lands { d.sys := d.sys.(instances := d.sys.instances[name := k]); }
    ok := lands && env.replies(0);
    d.Record(k, if ok then Advance(a) else a.(phase := Failed));
    RunSnoc(begun, env.rivals(0), RunInit(k, env.lands(0), env.replies(0)));
    RunConcat(old(d.sys), steps, env.rivals(0) + [RunInit(k, env.lands(0), env.replies(0))]);
    steps := steps + (env.rivals(0) + [RunInit(k, env.lands(0), env.replies(0))]);
  }

  /** Create never breaks the one-writer rule, whatever the others do and whatever fails. */
  lemma CreateKeepsOneWriter(before: Sys, steps: seq<Step>)
    requires Inv(before) && Orderly(steps)
    ensures Inv(Run(before, steps)) && OneWriter(Run(before, steps))
  {
    RunKeeps(before, steps);
    forall v, m, n | Confirmed(Run(before, steps), m, v) && Confirmed(Run(before, steps), n, v)
      ensures m == n
    {
      assert Exclusive(Run(before, steps), v, m, n);
    }
  }

  // ------------------------------------------------------- validateMounts

  datatype Mount = Mount(volume: Volume, path: string)

  const SYSTEM_PATHS := ["/bin", "/boot", "/dev", "/etc", "/lib", "/lib64", "/proc", "/run", "/sbin", "/sys", "/usr"]

  /** The slash-separated parts of a path. */
  function Segments(p: string): seq<string> {
    if p == [] then [""]
    else
      var rest := Segments(p[1..]);
      if p[0] == '/' then [""] + rest else [[p[0]] + rest[0]] + rest[1..]
  }

  /** An absolute path other than the root that cleaning leaves alone. */
  predicate Canonical(p: string) {
    |p| > 1 && p[0] == '/' &&
    var parts := Segments(p[1..]);
    forall i :: 0 <= i < |parts| ==> parts[i] !in {"", ".", ".."}
  }

  function Rejoined(parts: seq<string>): string {
    if parts == [] then "" else if |parts| == 1 then parts[0] else parts[0] + "/" + Rejoined(parts[1..])
  }

  /** The parts of a path hold no slash and, joined by slashes, are the path. */
  lemma {:induction false} SegmentsAreExact(p: string)
    ensures Segments(p) != [] && Rejoined(Segments(p)) == p
    ensures forall i :: 0 <= i < |Segments(p)| ==> '/' !in Segments(p)[i]
    decreases |p|
  {
    if p != [] {
      var rest, parts := Segments(p[1..]), Segments(p);
      SegmentsAreExact(p[1..]);
      if p[0] == '/' {
        assert parts[1..] == rest;
        assert Rejoined(parts) == "" + "/" + Rejoined(rest);
      } else {
        assert parts[1..] == rest[1..] && parts[0] == [p[0]] + rest[0];
        if |rest| > 1 { assert Rejoined(parts) == [p[0]] + (rest[0] + "/" + Rejoined(rest[1..])); }
      }
    }
  }

  /** A name begins here: not the end, not a slash, and not one or two dots up to the next slash or the end. */
  predicate NameHere(s: string) {
    && s != "" && s[0] != '/'
    && !(s[0] == '.' && (|s| == 1 || s[1] == '/'))
    && !(|s| >= 2 && s[0] == '.' && s[1] == '.' && (|s| == 2 || s[2] == '/'))
  }

  predicate Name(part: string) {
    part !in {"", ".", ".."}
  }

  lemma FirstPart(s: string)
    ensures s == "" || s[0] == '/' ==> Segments(s)[0] == ""
    ensures s != "" && s[0] != '/' ==>
              var rest := Segments(s[1..])[0];
              Segments(s)[0] == [s[0]] + rest && |Segments(s)[0]| == 1 + |rest|
  {
  }

  lemma ShortNames(part: string)
    ensures part != "" && part[0] != '.' ==> Name(part)
    ensures |part| >= 2 && part[1] != '.' ==> Name(part)
    ensures |part| >= 3 ==> Name(part)
  {
  }

  lemma DotFirst(s: string)
    requires s != "" && s[0] == '.'
    ensures Name(Segments(s)[0]) <==> NameHere(s)
  {
    var first, t := Segments(s)[0], s[1..];
    FirstPart(s);
    FirstPart(t);
    ShortNames(first);
    if t == "" || t[0] == '/' {
      assert first == ".";
    } else {
      assert t[0] == s[1] && first[1] == s[1];
      if s[1] == '.' {
        FirstPart(t[1..]);
        assert |s| > 2 ==> t[1..][0] == s[2];
        if |s| == 2 || s[2] == '/' { assert first == ".."; }
      }
    }
  }

  lemma FirstIsName(s: string)
    ensures Name(Segments(s)[0]) <==> NameHere(s)
  {
    FirstPart(s);
    ShortNames(Segments(s)[0]);
    if s != "" && s[0] == '.' { DotFirst(s); }
  }

  predicate NameAfterEverySlash(s: string) {
    forall i :: 0 <= i < |s| && s[i] == '/' ==> NameHere(s[i + 1..])
  }

  lemma {:induction false} OthersAreNames(s: string)
    ensures (forall j :: 1 <= j < |Segments(s)| ==> Name(Segments(s)[j])) <==> NameAfterEverySlash(s)
    decreases |s|
  {
    if s != "" {
      var t, parts, rest := s[1..], Segments(s), Segments(s[1..]);
      OthersAreNames(t);
      FirstIsName(t);
      assert forall i :: 0 <= i < |t| ==> t[i] == s[i + 1] && t[i + 1..] == s[i + 1 + 1..];
      assert NameAfterEverySlash(s) <==> (s[0] == '/' ==> NameHere(t)) && NameAfterEverySlash(t) by {
        if NameAfterEverySlash(s) {
          forall i | 0 <= i < |t| && t[i] == '/'
            ensures NameHere(t[i + 1..])
          {
            assert s[i + 1] == '/' && NameHere(s[i + 1 + 1..]);
          }
        }
      }
      if s[0] == '/' {
        assert parts[1..] == rest;
        assert forall j :: 1 <= j < |parts| ==> parts[j] == rest[j - 1];
        assert forall j :: 0 <= j < |rest| ==> rest[j] == parts[j + 1];
      } else {
        assert forall j :: 1 <= j < |parts| ==> parts[j] == rest[j];
      }
    }
  }

  /** Canonical, position by position: a path that begins with a slash, in which a name follows every slash. */
  lemma CanonicalIff(p: string)
    ensures Canonical(p) <==> |p| > 1 && p[0] == '/' && NameAfterEverySlash(p)
  {
    if |p| > 1 && p[0] == '/' {
      OthersAreNames(p);
      assert Segments(p)[1..] == Segments(p[1..]);
      assert forall j :: 0 <= j < |Segments(p[1..])| ==> Segments(p[1..])[j] == Segments(p)[j + 1];
    }
  }

  predicate Mountable(p: string) {
    Canonical(p) && |p| <= 256 && (forall i :: 0 <= i < |p| ==> ' ' <= p[i] && p[i] != '\U{7f}' && p[i] !in ",=")
  }

  predicate Covers(system: string, p: string) {
    p == system || system + "/" <= p
  }

  predicate OutsideSystem(p: string) {
    forall i :: 0 <= i < |SYSTEM_PATHS| ==> !Covers(SYSTEM_PATHS[i], p)
  }

  function Volumes(mounts: seq<Mount>): seq<Volume> {
    seq(|mounts|, i requires 0 <= i < |mounts| => mounts[i].volume)
  }

  function Paths(mounts: seq<Mount>): seq<string> {
    seq(|mounts|, i requires 0 <= i < |mounts| => mounts[i].path)
  }

  /** What Create demands of its mounts. */
  predicate Acceptable(owned: string -> bool, count: nat, mounts: seq<Mount>) {
    mounts == [] || (
      count != 0 && |mounts| <= count && Distinct(Volumes(mounts)) && Distinct(Paths(mounts)) &&
      forall i :: 0 <= i < |mounts| ==>
        owned(mounts[i].volume) && Mountable(mounts[i].path) &&
        OutsideSystem(mounts[i].path))
  }

  method ValidateMounts(owned: string -> bool, count: nat, mounts: seq<Mount>) returns (ok: bool)
    ensures ok <==> Acceptable(owned, count, mounts)
  {
    if |mounts| == 0 { return true; }
    if count == 0 || |mounts| > count { return false; }
    var volumes, paths := {}, {};
    var i := 0;
    while i < |mounts|
      invariant i <= |mounts|
      invariant forall v :: v in volumes <==> exists j :: 0 <= j < i && mounts[j].volume == v
      invariant forall p :: p in paths <==> exists j :: 0 <= j < i && mounts[j].path == p
      invariant forall j, l :: 0 <= j < l < i ==>
                  mounts[j].volume != mounts[l].volume &&
                  mounts[j].path != mounts[l].path
      invariant forall j :: 0 <= j < i ==>
                  owned(mounts[j].volume) && Mountable(mounts[j].path) &&
                  OutsideSystem(mounts[j].path)
    {
      var m := mounts[i];
      if !owned(m.volume) || m.volume in volumes {
        Repeats(owned, count, mounts, i);
        return false;
      }
      if !Mountable(m.path) || m.path in paths {
        Repeats(owned, count, mounts, i);
        return false;
      }
      var covered := CoversSystem(m.path);
      if covered { return false; }
      volumes, paths := volumes + {m.volume}, paths + {m.path};
      i := i + 1;
    }
    ok := true;
  }

  lemma Repeats(owned: string -> bool, count: nat, mounts: seq<Mount>, i: nat)
    requires i < |mounts|
    ensures Acceptable(owned, count, mounts) ==>
      owned(mounts[i].volume) && Mountable(mounts[i].path) &&
      forall j :: 0 <= j < i ==> mounts[j].volume != mounts[i].volume && mounts[j].path != mounts[i].path
  {
    if Acceptable(owned, count, mounts) {
      forall j | 0 <= j < i
        ensures mounts[j].volume != mounts[i].volume && mounts[j].path != mounts[i].path
      {
        assert Volumes(mounts)[j] != Volumes(mounts)[i] && Paths(mounts)[j] != Paths(mounts)[i];
      }
    }
  }

  method CoversSystem(p: string) returns (covered: bool)
    ensures covered <==> !OutsideSystem(p)
  {
    var i := 0;
    while i < |SYSTEM_PATHS|
      invariant i <= |SYSTEM_PATHS| && forall j :: 0 <= j < i ==> !Covers(SYSTEM_PATHS[j], p)
    {
      if Covers(SYSTEM_PATHS[i], p) { return true; }
      i := i + 1;
    }
    covered := false;
  }
}
