/** Exactly when deleting an instance is safe for the volumes (internal/computeclient/client.go, volumes.go). */
module VolumeDelete {
  import opened VolumeAttach

  ghost predicate AllProper(s: Sys) {
    forall m, n, v :: Proper(s, m, n, v)
  }

  /** Whatever happens later, deletes waiting for their Create calls again, the created instances stay proper. */
  ghost predicate HarmlessNow(s: Sys) {
    forall steps :: Orderly(steps) ==> AllProper(Run(s, steps))
  }

  lemma QuietDeleteIsHarmless(s: Sys, name: Name)
    requires Inv(s) && Quiet(s, name)
    ensures HarmlessNow(Next(s, HastyDelete(name)))
  {
    RemovedKeeps(s, name);
    forall steps | Orderly(steps)
      ensures AllProper(Run(Removed(s, name), steps))
    {
      RunKeeps(Removed(s, name), steps);
      forall m, n, v
        ensures Proper(Run(Removed(s, name), steps), m, n, v)
      {
        InvIsProper(Run(Removed(s, name), steps), m, n, v);
      }
    }
  }

  // ------------------------------------------------------- after a delete that did not wait

  /** What is left of the invariant when call `k` has lost its instance. */
  ghost predicate Orphaned(s: Sys, k: nat) {
    && k < |s.attempts| && s.attempts[k].name !in s.instances && s.attempts[k].index < |s.attempts[k].mounts|
    && WellFormed(s) && (forall j :: j != k ==> OwnsItsInstance(s, j)) && (forall v, n :: AsAsked(s, v, n))
  }

  lemma HastyDeleteOrphans(s: Sys, name: Name, k: nat)
    requires Inv(s) && k < |s.attempts| && s.attempts[k].name == name && InFlight(s.attempts[k])
    ensures Orphaned(Removed(s, name), k)
  {
    var t := Removed(s, name);
    assert OwnsItsInstance(s, k);
    forall j: nat | j != k
      ensures OwnsItsInstance(t, j)
    {
      assert OwnsItsInstance(s, j);
    }
    forall v, n
      ensures AsAsked(t, v, n)
    {
      assert AsAsked(s, v, n);
    }
  }

  lemma OrphanKeptByAbandon(s: Sys, k: nat, j: nat)
    requires Orphaned(s, k) && j < |s.attempts| && j != k && s.attempts[j].phase != Init
    ensures Orphaned(Next(s, Abandon(j)), k) && Next(s, Abandon(j)).attempts[k] == s.attempts[k]
    ensures var t := Next(s, Abandon(j));
            t.instances == s.instances && t.attached == s.attached && |t.attempts| == |s.attempts| &&
            t.attempts[j].name == s.attempts[j].name && !InFlight(t.attempts[j])
  {
    var t := Next(s, Abandon(j));
    forall i: nat | i != k
      ensures OwnsItsInstance(t, i)
    {
      assert OwnsItsInstance(s, i);
    }
    forall v, n
      ensures AsAsked(t, v, n)
    {
      assert AsAsked(s, v, n);
    }
  }

  lemma OrphanKeptByDelete(s: Sys, k: nat, m: Name)
    requires Orphaned(s, k) && m != s.attempts[k].name && Quiet(s, m)
    ensures Orphaned(Removed(s, m), k)
  {
    var t := Removed(s, m);
    forall i: nat | i != k
      ensures OwnsItsInstance(t, i)
    {
      assert OwnsItsInstance(s, i);
    }
    forall v, n
      ensures AsAsked(t, v, n)
    {
      assert AsAsked(s, v, n);
    }
  }

  /** A user of a volume can be taken away in good order: its call given up, the instance deleted. */
  lemma UserRemovable(s: Sys, k: nat, v: Volume, m: Name)
    requires Orphaned(s, k) && m in Users(s, v)
    ensures HasOwner(s, m)
    ensures var t := Next(Next(s, Abandon(s.instances[m])), Delete(m));
            && Orphaned(t, k) && t.attempts[k] == s.attempts[k] && |t.attempts| == |s.attempts|
            && Users(t, v) == Users(s, v) - {m}
  {
    assert AsAsked(s, v, m);
    var j := s.instances[m];
    OrphanKeptByAbandon(s, k, j);
    var a := Next(s, Abandon(j));
    forall i | 0 <= i < |a.attempts| && a.attempts[i].name == m
      ensures !InFlight(a.attempts[i])
    {
      assert OwnsItsInstance(a, i);
    }
    OrphanKeptByDelete(a, k, m);
  }

  /** So any volume can be made free, in good order, behind the orphaned call's back. */
  lemma {:induction false} FreeVolume(s: Sys, k: nat, v: Volume) returns (steps: seq<Step>)
    requires Orphaned(s, k)
    ensures Orderly(steps)
    ensures var t := Run(s, steps);
            Orphaned(t, k) && t.attempts[k] == s.attempts[k] && v in t.attached && t.attached[v] == {}
    decreases |Users(s, v)|
  {
    if Users(s, v) == {} {
      steps := [MakeVolume(v)];
      OneStep(s, MakeVolume(v));
      UnusedVolume(s, k, v);
    } else {
      var m :| m in Users(s, v);
      UserRemovable(s, k, v, m);
      var two := [Abandon(s.instances[m])] + [Delete(m)];
      OneStep(s, Abandon(s.instances[m]));
      RunSnoc(s, [Abandon(s.instances[m])], Delete(m));
      var more := FreeVolume(Run(s, two), k, v);
      steps := two + more;
      RunConcat(s, two, more);
    }
  }

  lemma OneStep(s: Sys, step: Step)
    ensures Run(s, [step]) == Next(s, step)
  {
    assert Run(s, []) == s;
    RunSnoc(s, [], step);
    assert [] + [step] == [step];
  }

  lemma UnusedVolume(s: Sys, k: nat, v: Volume)
    requires Orphaned(s, k) && Users(s, v) == {}
    ensures var t := Next(s, MakeVolume(v));
            Orphaned(t, k) && t.attempts[k] == s.attempts[k] && v in t.attached && t.attached[v] == {}
  {
    var t := Next(s, MakeVolume(v));
    forall u, n
      ensures AsAsked(t, u, n)
    {
      assert AsAsked(s, u, n);
    }
    forall j: nat | j != k
      ensures OwnsItsInstance(t, j)
    {
      assert OwnsItsInstance(s, j);
    }
  }

  /** Two runs and a step, one after the other. */
  lemma Chained(s: Sys, p: seq<Step>, q: seq<Step>, step: Step)
    requires Orderly(p) && Orderly(q) && !step.HastyDelete?
    ensures Orderly(p + q + [step]) && Run(s, p + q + [step]) == Next(Run(Run(s, p), q), step)
  {
    RunConcat(s, p, q);
    RunSnoc(s, p + q, step);
  }

  // ------------------------------------------------------- the instance is created anew

  /** Create the orphaned call's instance again, without volumes. */
  function Bare(s: Sys, name: Name): seq<Step> {
    [Begin(name, [])] + [RunInit(|s.attempts|, true, true)]
  }

  lemma BareRuns(s: Sys, name: Name)
    requires name !in s.instances
    ensures var j := |s.attempts|;
            Run(s, Bare(s, name))
            == s.(attempts := s.attempts + [Attempt(name, [], 0, Succeeded)], instances := s.instances[name := j])
  {
    var j := |s.attempts|;
    var begun := s.(attempts := s.attempts + [Attempt(name, [], 0, Init)]);
    OneStep(s, Begin(name, []));
    RunSnoc(s, [Begin(name, [])], RunInit(j, true, true));
    assert begun.attempts[j := Attempt(name, [], 0, Succeeded)] == s.attempts + [Attempt(name, [], 0, Succeeded)];
  }

  lemma BareCreates(s: Sys, k: nat)
    requires Orphaned(s, k)
    ensures var a, t := s.attempts[k], Run(s, Bare(s, s.attempts[k].name));
            && k < |t.attempts| && t.attempts[k] == a && t.attached == s.attached
            && Created(t, a.name) && Owner(t, a.name).mounts == [] && t.instances[a.name] != k
  {
    BareRuns(s, s.attempts[k].name);
  }

  /** Create it again, with the volume the call is about. */
  function Laden(s: Sys, name: Name, v: Volume): seq<Step> {
    var j := |s.attempts|;
    [Begin(name, [v])] + [RunInit(j, true, true)]
    + [RunCheck(j, true)] + [RunAttach(j, true, true)] + [RunConfirm(j, true)]
  }

  lemma LadenCreates(s: Sys, k: nat, v: Volume)
    requires Orphaned(s, k) && v in s.attached && s.attached[v] == {}
    ensures var a, t := s.attempts[k], Run(s, Laden(s, s.attempts[k].name, v));
            && k < |t.attempts| && t.attempts[k] == a && v in t.attached
            && Created(t, a.name) && Owner(t, a.name).mounts == [v] && t.instances[a.name] != k
    ensures Orderly(Laden(s, s.attempts[k].name, v))
  {
    var a, j := s.attempts[k], |s.attempts|;
    var p1 := [Begin(a.name, [v])];
    var p2 := p1 + [RunInit(j, true, true)];
    var started := s.(attempts := s.attempts + [Attempt(a.name, [v], 0, Check)], instances := s.instances[a.name := j]);
    OneStep(s, Begin(a.name, [v]));
    RunSnoc(s, p1, RunInit(j, true, true));
    assert Run(s, p2) == started;
    TakesVolume(started, j, v);
    RunSnoc(s, p2, RunCheck(j, true));
    RunSnoc(s, p2 + [RunCheck(j, true)], RunAttach(j, true, true));
    RunSnoc(s, p2 + [RunCheck(j, true)] + [RunAttach(j, true, true)], RunConfirm(j, true));
  }

  // ------------------------------------------------------- one run for every phase

  /** A call about to attach puts its volume on an instance that never asked for it. */
  lemma AttachHarms(s: Sys, k: nat) returns (steps: seq<Step>)
    requires Orphaned(s, k) && s.attempts[k].phase == Attach
    ensures Orderly(steps) && !AllProper(Run(s, steps))
  {
    var a := s.attempts[k];
    var v := a.mounts[a.index];
    var free := FreeVolume(s, k, v);
    var t := Run(s, free);
    BareCreates(t, k);
    var bare := Bare(t, a.name);
    Chained(s, free, bare, RunAttach(k, true, true));
    steps := free + bare + [RunAttach(k, true, true)];
    assert !Proper(Run(s, steps), a.name, a.name, v);
  }

  /** So does a call that is about to look whether the volume is free. */
  lemma CheckHarms(s: Sys, k: nat) returns (steps: seq<Step>)
    requires Orphaned(s, k) && s.attempts[k].phase == Check
    ensures Orderly(steps) && !AllProper(Run(s, steps))
  {
    var a := s.attempts[k];
    var v := a.mounts[a.index];
    var free := FreeVolume(s, k, v);
    var t := Run(s, free);
    BareCreates(t, k);
    var bare := Bare(t, a.name);
    Chained(s, free, bare, RunCheck(k, true));
    RunSnoc(s, free + bare + [RunCheck(k, true)], RunAttach(k, true, true));
    steps := free + bare + [RunCheck(k, true)] + [RunAttach(k, true, true)];
    assert !Proper(Run(s, steps), a.name, a.name, v);
  }

  /** A call about to give its volume back takes it from the instance created anew. */
  lemma WithdrawHarms(s: Sys, k: nat) returns (steps: seq<Step>)
    requires Orphaned(s, k) && s.attempts[k].phase == Withdraw
    ensures Orderly(steps) && !AllProper(Run(s, steps))
  {
    var a := s.attempts[k];
    var v := a.mounts[a.index];
    var free := FreeVolume(s, k, v);
    var t := Run(s, free);
    LadenCreates(t, k, v);
    var laden := Laden(t, a.name, v);
    Chained(s, free, laden, RunWithdraw(k, true));
    steps := free + laden + [RunWithdraw(k, true)];
    WithdrawTakes(Run(t, laden), k, v);
  }

  lemma WithdrawTakes(s: Sys, k: nat, v: Volume)
    requires k < |s.attempts| && s.attempts[k].phase == Withdraw && s.attempts[k].index < |s.attempts[k].mounts|
    requires s.attempts[k].mounts[s.attempts[k].index] == v && v in s.attached
    requires var name := s.attempts[k].name; Created(s, name) && Owner(s, name).mounts == [v] && s.instances[name] != k
    ensures !AllProper(Next(s, RunWithdraw(k, true)))
  {
    var name, t := s.attempts[k].name, Next(s, RunWithdraw(k, true));
    assert Created(t, name) && v in Owner(t, name).mounts && name !in Users(t, v);
    assert !Proper(t, name, name, v);
  }

  /** A call about to confirm no longer finds its instance on the volume, and decides to give it back. */
  lemma ConfirmHarms(s: Sys, k: nat) returns (steps: seq<Step>)
    requires Orphaned(s, k) && s.attempts[k].phase == Confirm
    ensures Orderly(steps) && !AllProper(Run(s, steps))
  {
    var a := s.attempts[k];
    var v := a.mounts[a.index];
    assert AsAsked(s, v, a.name);
    var t := Next(s, RunConfirm(k, true));
    assert Orphaned(t, k) by {
      forall j: nat | j != k
        ensures OwnsItsInstance(t, j)
      {
        assert OwnsItsInstance(s, j);
      }
      forall u, n
        ensures AsAsked(t, u, n)
      {
        assert AsAsked(s, u, n);
      }
    }
    var more := WithdrawHarms(t, k);
    OneStep(s, RunConfirm(k, true));
    steps := [RunConfirm(k, true)] + more;
    RunConcat(s, [RunConfirm(k, true)], more);
  }

  /** A delete that does not wait is harmless if and only if no Create call for the instance is in flight:
      whatever such a call is about to do, some orderly run turns it against the instance created anew. */
  lemma HastyDeleteHarmlessIff(s: Sys, name: Name)
    requires Inv(s)
    ensures HarmlessNow(Next(s, HastyDelete(name))) <==> Quiet(s, name)
  {
    if Quiet(s, name) {
      QuietDeleteIsHarmless(s, name);
    } else {
      var k: nat :| k < |s.attempts| && s.attempts[k].name == name && InFlight(s.attempts[k]);
      HastyDeleteOrphans(s, name, k);
      var t := Removed(s, name);
      var steps;
      match t.attempts[k].phase {
        case Check => steps := CheckHarms(t, k);
        case Attach => steps := AttachHarms(t, k);
        case Confirm => steps := ConfirmHarms(t, k);
        case Withdraw => steps := WithdrawHarms(t, k);
        case _ =>
      }
    }
  }
}
