/** One writer per persistent volume (internal/computeclient/volumes.go, client.go). */
module VolumeAttach {
  import opened Wrappers

  type Name = string
  type Volume = string

  /** Where one Create call stands: about to run `init`, to list the volumes, to attach, to list again,
      to give the volume back; or returned. A call whose client died stays where it was: the command
      it had sent may still land. */
  datatype Phase = Init | Check | Attach | Confirm | Withdraw | Succeeded | Failed

  /** One Create call; the first `index` mounts are confirmed. */
  datatype Attempt = Attempt(name: Name, mounts: seq<Volume>, index: nat, phase: Phase)

  /** The daemon's view and every Create call so far. `instances` maps an existing
      instance to the call that created it; `attached` an existing volume to its users. */
  datatype Sys = Sys(instances: map<Name, nat>, attached: map<Volume, set<Name>>, attempts: seq<Attempt>)

  /** `lands`: the daemon carried the command out; `replies`: the client saw it succeed. */
  datatype Step =
    | Begin(name: Name, mounts: seq<Volume>)
    | RunInit(k: nat, lands: bool, replies: bool)
    | RunCheck(k: nat, replies: bool)
    | RunAttach(k: nat, lands: bool, replies: bool)
    | RunConfirm(k: nat, replies: bool)
    | RunWithdraw(k: nat, lands: bool)
    | Abandon(k: nat)
    | Delete(name: Name)
    | HastyDelete(name: Name)
    | MakeVolume(volume: Volume)
    | DropVolume(volume: Volume)

  predicate Distinct(mounts: seq<Volume>) {
    forall i, j :: 0 <= i < j < |mounts| ==> mounts[i] != mounts[j]
  }

  // ------------------------------------------------------- the steps

  /** The call holds an instance and has not returned. */
  predicate InFlight(a: Attempt) {
    a.phase in {Check, Attach, Confirm, Withdraw}
  }

  predicate Quiet(s: Sys, name: Name) {
    forall k :: 0 <= k < |s.attempts| && s.attempts[k].name == name ==> !InFlight(s.attempts[k])
  }

  function Advance(a: Attempt): Attempt {
    if a.index >= |a.mounts| then a.(phase := Succeeded) else a.(phase := Check)
  }

  function Put(s: Sys, k: nat, a: Attempt): Sys
    requires k < |s.attempts|
  {
    s.(attempts := s.attempts[k := a])
  }

  function Users(s: Sys, v: Volume): set<Name> {
    if v in s.attached then s.attached[v] else {}
  }

  /** `init` refuses a name that exists. */
  function AfterInit(s: Sys, k: nat, a: Attempt, lands: bool, replies: bool): Sys
    requires k < |s.attempts|
  {
    if lands && a.name !in s.instances then
      Put(s.(instances := s.instances[a.name := k]), k, if replies then Advance(a) else a.(phase := Failed))
    else Put(s, k, a.(phase := Failed))
  }

  function AfterCheck(s: Sys, k: nat, a: Attempt, replies: bool): Sys
    requires k < |s.attempts| && a.index < |a.mounts|
  {
    var v := a.mounts[a.index];
    if replies && v in s.attached && s.attached[v] == {} then Put(s, k, a.(phase := Attach))
    else Put(s, k, a.(phase := Failed))
  }

  function AfterAttach(s: Sys, k: nat, a: Attempt, lands: bool, replies: bool): Sys
    requires k < |s.attempts| && a.index < |a.mounts|
  {
    var v := a.mounts[a.index];
    if lands && a.name in s.instances && v in s.attached then
      Put(s.(attached := s.attached[v := s.attached[v] + {a.name}]), k,
        a.(phase := if replies then Confirm else Failed))
    else Put(s, k, a.(phase := Failed))
  }

  function AfterConfirm(s: Sys, k: nat, a: Attempt, replies: bool): Sys
    requires k < |s.attempts| && a.index < |a.mounts|
  {
    var v := a.mounts[a.index];
    if !replies then Put(s, k, a.(phase := Failed))
    else if v in s.attached && s.attached[v] == {a.name} then Put(s, k, Advance(a.(index := a.index + 1)))
    else Put(s, k, a.(phase := Withdraw))
  }

  function AfterWithdraw(s: Sys, k: nat, a: Attempt, lands: bool): Sys
    requires k < |s.attempts| && a.index < |a.mounts|
  {
    var v := a.mounts[a.index];
    var left := if lands && v in s.attached then s.(attached := s.attached[v := s.attached[v] - {a.name}]) else s;
    Put(left, k, a.(phase := Failed))
  }

  function Removed(s: Sys, name: Name): Sys {
    s.(instances := s.instances - {name}, attached := map v | v in s.attached :: s.attached[v] - {name})
  }

  function Command(s: Sys, k: nat, a: Attempt, step: Step): Sys
    requires k < |s.attempts|
  {
    match step
    case RunInit(_, lands, replies) => if a.phase == Init then AfterInit(s, k, a, lands, replies) else s
    case RunCheck(_, replies) => if a.phase == Check && a.index < |a.mounts| then AfterCheck(s, k, a, replies) else s
    case RunAttach(_, lands, replies) =>
      if a.phase == Attach && a.index < |a.mounts| then AfterAttach(s, k, a, lands, replies) else s
    case RunConfirm(_, replies) =>
      if a.phase == Confirm && a.index < |a.mounts| then AfterConfirm(s, k, a, replies) else s
    case RunWithdraw(_, lands) =>
      if a.phase == Withdraw && a.index < |a.mounts| then AfterWithdraw(s, k, a, lands) else s
    case Abandon(_) => if InFlight(a) || a.phase == Init then Put(s, k, a.(phase := Failed)) else s
    case _ => s
  }

  /** One step of the whole system; a step that is not enabled changes nothing. */
  function Next(s: Sys, step: Step): Sys {
    match step
    case Begin(name, mounts) =>
      if Distinct(mounts) then s.(attempts := s.attempts + [Attempt(name, mounts, 0, Init)]) else s
    case Delete(name) => if Quiet(s, name) then Removed(s, name) else s
    case HastyDelete(name) => Removed(s, name)
    case MakeVolume(v) => if v in s.attached then s else s.(attached := s.attached[v := {}])
    case DropVolume(v) => if Users(s, v) == {} then s.(attached := s.attached - {v}) else s
    case _ => if step.k < |s.attempts| then Command(s, step.k, s.attempts[step.k], step) else s
  }

  function Run(s: Sys, steps: seq<Step>): Sys {
    if steps == [] then s else Next(Run(s, steps[..|steps| - 1]), steps[|steps| - 1])
  }

  /** Instances are only deleted once no Create call for them is in flight. */
  predicate Orderly(steps: seq<Step>) {
    forall i :: 0 <= i < |steps| ==> !steps[i].HastyDelete?
  }

  // ------------------------------------------------------- the invariant

  /** The call confirmed `v`. */
  predicate Got(a: Attempt, v: Volume) {
    exists i :: 0 <= i < a.index && i < |a.mounts| && a.mounts[i] == v
  }

  predicate Coherent(a: Attempt) {
    Distinct(a.mounts) && a.index <= |a.mounts| && (InFlight(a) ==> a.index < |a.mounts|) &&
    (a.phase == Succeeded ==> a.index == |a.mounts|) && (a.phase == Init ==> a.index == 0)
  }

  predicate HasOwner(s: Sys, n: Name) {
    n in s.instances && s.instances[n] < |s.attempts|
  }

  function Owner(s: Sys, n: Name): Attempt
    requires HasOwner(s, n)
  {
    s.attempts[s.instances[n]]
  }

  /** The Create call behind instance `n` confirmed `v`. */
  predicate Confirmed(s: Sys, n: Name, v: Volume) {
    HasOwner(s, n) && Got(Owner(s, n), v)
  }

  ghost predicate WellFormed(s: Sys) {
    (forall k :: 0 <= k < |s.attempts| ==> Coherent(s.attempts[k])) &&
    (forall n :: n in s.instances ==> HasOwner(s, n) && Owner(s, n).name == n && Owner(s, n).phase != Init)
  }

  /** A call in flight still owns the instance it created. */
  predicate OwnsItsInstance(s: Sys, k: nat) {
    k < |s.attempts| && InFlight(s.attempts[k]) ==>
      s.attempts[k].name in s.instances &&
      s.instances[s.attempts[k].name] == k
  }

  /** An instance is attached only to what its Create call asked for. */
  predicate AsAsked(s: Sys, v: Volume, n: Name) {
    n in Users(s, v) ==> HasOwner(s, n) && v in Owner(s, n).mounts
  }

  /** A confirmed mount stays attached for as long as the instance exists. */
  predicate Kept(s: Sys, v: Volume, n: Name) {
    Confirmed(s, n, v) ==> n in Users(s, v)
  }

  /** No volume is confirmed for two instances. */
  predicate Exclusive(s: Sys, v: Volume, m: Name, n: Name) {
    Confirmed(s, m, v) && Confirmed(s, n, v) ==> m == n
  }

  ghost predicate Inv(s: Sys) {
    WellFormed(s) && (forall k :: OwnsItsInstance(s, k)) && (forall v, n :: AsAsked(s, v, n)) &&
    (forall v, n :: Kept(s, v, n)) && (forall v, m, n :: Exclusive(s, v, m, n))
  }

  /** At most one instance is confirmed while attached. */
  ghost predicate OneWriter(s: Sys) {
    forall v, m, n :: m in Users(s, v) && n in Users(s, v) && Confirmed(s, m, v) && Confirmed(s, n, v) ==> m == n
  }

  /** A created instance: it exists and its Create call returned success. */
  predicate Created(s: Sys, n: Name) {
    HasOwner(s, n) && Owner(s, n).phase == Succeeded
  }

  // ------------------------------------------------------- every step keeps it

  lemma PutKeeps(s: Sys, k: nat, p: Phase)
    requires Inv(s) && k < |s.attempts|
    requires if s.attempts[k].phase == Init then p == Failed
             else InFlight(s.attempts[k]) && p in {Attach, Confirm, Withdraw, Failed}
    ensures Inv(Put(s, k, s.attempts[k].(phase := p)))
  {
    var t := Put(s, k, s.attempts[k].(phase := p));
    assert forall n :: HasOwner(t, n) <==> HasOwner(s, n);
    assert forall n, v :: Confirmed(t, n, v) <==> Confirmed(s, n, v);
    forall j
      ensures OwnsItsInstance(t, j)
    {
      assert OwnsItsInstance(s, j);
    }
    forall v, n
      ensures AsAsked(t, v, n) && Kept(t, v, n)
    {
      assert AsAsked(s, v, n) && Kept(s, v, n);
    }
    forall v, m, n
      ensures Exclusive(t, v, m, n)
    {
      assert Exclusive(s, v, m, n);
    }
  }

  function WithUsers(s: Sys, v: Volume, users: set<Name>): Sys {
    s.(attached := s.attached[v := users])
  }

  /** Attaching an instance to a volume its call asked for. */
  lemma AddUserKeeps(s: Sys, v: Volume, name: Name)
    requires Inv(s) && v in s.attached && HasOwner(s, name) && v in Owner(s, name).mounts
    ensures Inv(WithUsers(s, v, s.attached[v] + {name}))
  {
    var t := WithUsers(s, v, s.attached[v] + {name});
    assert forall n, u :: Confirmed(t, n, u) <==> Confirmed(s, n, u);
    forall k
      ensures OwnsItsInstance(t, k)
    {
      assert OwnsItsInstance(s, k);
    }
    forall u, n
      ensures AsAsked(t, u, n) && Kept(t, u, n)
    {
      assert AsAsked(s, u, n) && Kept(s, u, n);
    }
    forall u, m, n
      ensures Exclusive(t, u, m, n)
    {
      assert Exclusive(s, u, m, n);
    }
  }

  /** Taking back a mount that was never confirmed. */
  lemma DropUserKeeps(s: Sys, v: Volume, name: Name)
    requires Inv(s) && v in s.attached && !Confirmed(s, name, v)
    ensures Inv(WithUsers(s, v, s.attached[v] - {name}))
  {
    var t := WithUsers(s, v, s.attached[v] - {name});
    assert forall n, u :: Confirmed(t, n, u) <==> Confirmed(s, n, u);
    forall k
      ensures OwnsItsInstance(t, k)
    {
      assert OwnsItsInstance(s, k);
    }
    forall u, n
      ensures AsAsked(t, u, n) && Kept(t, u, n)
    {
      assert AsAsked(s, u, n) && Kept(s, u, n);
    }
    forall u, m, n
      ensures Exclusive(t, u, m, n)
    {
      assert Exclusive(s, u, m, n);
    }
  }

  lemma AttachKeeps(s: Sys, k: nat, lands: bool, replies: bool)
    requires Inv(s) && k < |s.attempts| && s.attempts[k].phase == Attach
    ensures Inv(AfterAttach(s, k, s.attempts[k], lands, replies))
  {
    var a := s.attempts[k];
    var v := a.mounts[a.index];
    assert OwnsItsInstance(s, k);
    if lands && a.name in s.instances && v in s.attached {
      AddUserKeeps(s, v, a.name);
      PutKeeps(WithUsers(s, v, s.attached[v] + {a.name}), k, if replies then Confirm else Failed);
    } else {
      PutKeeps(s, k, Failed);
    }
  }

  lemma WithdrawKeeps(s: Sys, k: nat, lands: bool)
    requires Inv(s) && k < |s.attempts| && s.attempts[k].phase == Withdraw
    ensures Inv(AfterWithdraw(s, k, s.attempts[k], lands))
  {
    var a := s.attempts[k];
    var v := a.mounts[a.index];
    assert OwnsItsInstance(s, k);
    if lands && v in s.attached {
      DropUserKeeps(s, v, a.name);
      PutKeeps(WithUsers(s, v, s.attached[v] - {a.name}), k, Failed);
    } else {
      PutKeeps(s, k, Failed);
    }
  }

  /** The heart of the protocol: a volume whose only user is this instance was confirmed for nobody else. */
  lemma ConfirmKeeps(s: Sys, k: nat, replies: bool)
    requires Inv(s) && k < |s.attempts| && s.attempts[k].phase == Confirm
    ensures Inv(AfterConfirm(s, k, s.attempts[k], replies))
  {
    var a := s.attempts[k];
    var v := a.mounts[a.index];
    assert OwnsItsInstance(s, k);
    if !replies {
      PutKeeps(s, k, Failed);
    } else if v in s.attached && s.attached[v] == {a.name} {
      SoleUserKeeps(s, k, Advance(a.(index := a.index + 1)));
    } else {
      PutKeeps(s, k, Withdraw);
    }
  }

  lemma SoleUserKeeps(s: Sys, k: nat, b: Attempt)
    requires Inv(s) && k < |s.attempts| && InFlight(s.attempts[k])
    requires var a := s.attempts[k];
             b == Advance(a.(index := a.index + 1)) && Users(s, a.mounts[a.index]) == {a.name}
    ensures Inv(Put(s, k, b))
  {
    var a, t := s.attempts[k], Put(s, k, b);
    var v := a.mounts[a.index];
    assert OwnsItsInstance(s, k);
    assert forall u :: Got(b, u) <==> Got(a, u) || u == v;
    assert forall n, u :: Confirmed(t, n, u) <==> Confirmed(s, n, u) || (n == a.name && u == v);
    forall j
      ensures OwnsItsInstance(t, j)
    {
      assert OwnsItsInstance(s, j);
    }
    forall u, n
      ensures AsAsked(t, u, n) && Kept(t, u, n)
    {
      assert AsAsked(s, u, n) && Kept(s, u, n);
    }
    forall u, m, n
      ensures Exclusive(t, u, m, n)
    {
      assert Exclusive(s, u, m, n) && Kept(s, u, m) && Kept(s, u, n);
    }
  }

  lemma InitKeeps(s: Sys, k: nat, lands: bool, replies: bool)
    requires Inv(s) && k < |s.attempts| && s.attempts[k].phase == Init
    ensures Inv(AfterInit(s, k, s.attempts[k], lands, replies))
  {
    var a := s.attempts[k];
    if lands && a.name !in s.instances {
      NewInstanceKeeps(s, k, if replies then Advance(a) else a.(phase := Failed));
    } else {
      PutKeeps(s, k, Failed);
    }
  }

  lemma NewInstanceKeeps(s: Sys, k: nat, b: Attempt)
    requires Inv(s) && k < |s.attempts| && s.attempts[k].phase == Init && s.attempts[k].name !in s.instances
    requires b == Advance(s.attempts[k]) || b == s.attempts[k].(phase := Failed)
    ensures Inv(Put(s.(instances := s.instances[b.name := k]), k, b))
  {
    var t := Put(s.(instances := s.instances[b.name := k]), k, b);
    assert forall n :: HasOwner(s, n) ==> Owner(t, n) == Owner(s, n);
    assert forall n, u :: Confirmed(t, n, u) <==> Confirmed(s, n, u);
    forall j
      ensures OwnsItsInstance(t, j)
    {
      assert OwnsItsInstance(s, j);
    }
    forall u, n
      ensures AsAsked(t, u, n) && Kept(t, u, n)
    {
      assert AsAsked(s, u, n) && Kept(s, u, n);
    }
    forall u, m, n
      ensures Exclusive(t, u, m, n)
    {
      assert Exclusive(s, u, m, n);
    }
  }

  lemma RemovedKeeps(s: Sys, name: Name)
    requires Inv(s) && Quiet(s, name)
    ensures Inv(Removed(s, name))
  {
    var t := Removed(s, name);
    assert forall v :: Users(t, v) == Users(s, v) - {name};
    assert forall n, u :: Confirmed(t, n, u) <==> Confirmed(s, n, u) && n != name;
    forall k
      ensures OwnsItsInstance(t, k)
    {
      assert OwnsItsInstance(s, k);
    }
    forall u, n
      ensures AsAsked(t, u, n) && Kept(t, u, n)
    {
      assert AsAsked(s, u, n) && Kept(s, u, n);
    }
    forall u, m, n
      ensures Exclusive(t, u, m, n)
    {
      assert Exclusive(s, u, m, n);
    }
  }

  lemma BeginKeeps(s: Sys, name: Name, mounts: seq<Volume>)
    requires Inv(s) && Distinct(mounts)
    ensures Inv(s.(attempts := s.attempts + [Attempt(name, mounts, 0, Init)]))
  {
    var t := s.(attempts := s.attempts + [Attempt(name, mounts, 0, Init)]);
    assert forall n :: n in s.instances ==> HasOwner(s, n) && Owner(t, n) == Owner(s, n);
    assert forall n, u :: Confirmed(t, n, u) <==> Confirmed(s, n, u);
    forall k
      ensures OwnsItsInstance(t, k)
    {
      assert OwnsItsInstance(s, k);
    }
    forall u, n
      ensures AsAsked(t, u, n) && Kept(t, u, n)
    {
      assert AsAsked(s, u, n) && Kept(s, u, n);
    }
    forall u, m, n
      ensures Exclusive(t, u, m, n)
    {
      assert Exclusive(s, u, m, n);
    }
  }

  lemma SameUsersKeeps(s: Sys, attached: map<Volume, set<Name>>)
    requires Inv(s) && forall v :: Users(s, v) == Users(s.(attached := attached), v)
    ensures Inv(s.(attached := attached))
  {
    var t := s.(attached := attached);
    assert forall n, u :: Confirmed(t, n, u) <==> Confirmed(s, n, u);
    forall k
      ensures OwnsItsInstance(t, k)
    {
      assert OwnsItsInstance(s, k);
    }
    forall u, n
      ensures AsAsked(t, u, n) && Kept(t, u, n)
    {
      assert AsAsked(s, u, n) && Kept(s, u, n);
    }
    forall u, m, n
      ensures Exclusive(t, u, m, n)
    {
      assert Exclusive(s, u, m, n);
    }
  }

  lemma CommandKeeps(s: Sys, k: nat, step: Step)
    requires Inv(s) && k < |s.attempts|
    ensures Inv(Command(s, k, s.attempts[k], step))
  {
    var a := s.attempts[k];
    match step {
      case RunInit(_, lands, replies) => if a.phase == Init { InitKeeps(s, k, lands, replies); }
      case RunCheck(_, replies) => if a.phase == Check { PutKeeps(s, k, Attach); PutKeeps(s, k, Failed); }
      case RunAttach(_, lands, replies) => if a.phase == Attach { AttachKeeps(s, k, lands, replies); }
      case RunConfirm(_, replies) => if a.phase == Confirm { ConfirmKeeps(s, k, replies); }
      case RunWithdraw(_, lands) => if a.phase == Withdraw { WithdrawKeeps(s, k, lands); }
      case Abandon(_) => if InFlight(a) || a.phase == Init { PutKeeps(s, k, Failed); }
      case _ =>
    }
  }

  lemma StepKeeps(s: Sys, step: Step)
    requires Inv(s) && !step.HastyDelete?
    ensures Inv(Next(s, step))
  {
    match step {
      case Begin(name, mounts) => if Distinct(mounts) { BeginKeeps(s, name, mounts); }
      case Delete(name) => if Quiet(s, name) { RemovedKeeps(s, name); }
      case MakeVolume(v) => if v !in s.attached { SameUsersKeeps(s, s.attached[v := {}]); }
      case DropVolume(v) => if Users(s, v) == {} { SameUsersKeeps(s, s.attached - {v}); }
      case HastyDelete(_) =>
      case _ => if step.k < |s.attempts| { CommandKeeps(s, step.k, step); }
    }
  }

  lemma {:induction false} RunKeeps(s: Sys, steps: seq<Step>)
    requires Inv(s) && Orderly(steps)
    ensures Inv(Run(s, steps))
    decreases |steps|
  {
    if steps != [] {
      RunKeeps(s, steps[..|steps| - 1]);
      StepKeeps(Run(s, steps[..|steps| - 1]), steps[|steps| - 1]);
    }
  }

  /** A lease's project before any instance: some volumes, none in use. */
  ghost predicate Fresh(s: Sys) {
    s.instances == map[] && s.attempts == [] && forall v :: Users(s, v) == {}
  }

  /** In every interleaving of any number of clients, at most one instance is confirmed while attached. */
  lemma OneWriterAlways(s: Sys, steps: seq<Step>)
    requires Fresh(s) && Orderly(steps)
    ensures OneWriter(Run(s, steps))
  {
    RunKeeps(s, steps);
    var t := Run(s, steps);
    forall v, m, n | Confirmed(t, m, v) && Confirmed(t, n, v)
      ensures m == n
    {
      assert Exclusive(t, v, m, n);
    }
  }

  /** A created instance holds every volume it asked for and no other, and none together with another created
      instance. */
  predicate Proper(s: Sys, m: Name, n: Name, v: Volume) {
    Created(s, n) ==>
      (v in Owner(s, n).mounts <==> n in Users(s, v)) &&
      (n in Users(s, v) && m in Users(s, v) && Created(s, m) ==> m == n)
  }

  lemma InvIsProper(s: Sys, m: Name, n: Name, v: Volume)
    requires Inv(s)
    ensures Proper(s, m, n, v)
  {
    assert AsAsked(s, v, n) && Kept(s, v, n) && AsAsked(s, v, m) && Exclusive(s, v, m, n);
  }

  /** So it is in every interleaving of any number of clients. */
  lemma CreatedInstancesNeverShare(s: Sys, steps: seq<Step>, m: Name, n: Name, v: Volume)
    requires Fresh(s) && Orderly(steps)
    ensures Proper(Run(s, steps), m, n, v)
  {
    RunKeeps(s, steps);
    InvIsProper(Run(s, steps), m, n, v);
  }

  // ------------------------------------------------------- why deletes must wait

  lemma RunSnoc(s: Sys, steps: seq<Step>, step: Step)
    ensures Run(s, steps + [step]) == Next(Run(s, steps), step)
  {
    assert (steps + [step])[..|steps|] == steps;
  }

  lemma {:induction false} RunConcat(s: Sys, p: seq<Step>, q: seq<Step>)
    ensures Run(s, p + q) == Run(Run(s, p), q)
    decreases |q|
  {
    if q == [] {
      assert p + q == p;
    } else {
      RunConcat(s, p, q[..|q| - 1]);
      assert (p + q)[..|p + q| - 1] == p + q[..|q| - 1];
    }
  }

  /** Delete the instance of a call about to attach, create it anew, and let another instance take the volume. */
  function Takeover(s: Sys, k: nat, other: Name): seq<Step>
    requires k < |s.attempts| && s.attempts[k].index < |s.attempts[k].mounts|
  {
    var a, j := s.attempts[k], |s.attempts|;
    [HastyDelete(a.name), Begin(a.name, []), RunInit(j, true, true), Begin(other, [a.mounts[a.index]]),
      RunInit(j + 1, true, true)]
    + [RunCheck(j + 1, true), RunAttach(j + 1, true, true), RunConfirm(j + 1, true)]
  }

  lemma {:induction false} TakeoverCreatesBoth(s: Sys, k: nat, other: Name)
    requires Inv(s) && k < |s.attempts| && s.attempts[k].phase == Attach
    requires var a := s.attempts[k];
             a.mounts[a.index] in s.attached && s.attached[a.mounts[a.index]] == {} && other !in s.instances &&
             other != a.name
    ensures var a, t := s.attempts[k], Run(s, Takeover(s, k, other));
            k < |t.attempts| && t.attempts[k] == a && Created(t, a.name) && Created(t, other) &&
            a.mounts[a.index] in t.attached && t.attached[a.mounts[a.index]] == {other}
  {
    var a, j := s.attempts[k], |s.attempts|;
    var v := a.mounts[a.index];
    var s1 := Removed(s, a.name);
    var s2 := s1.(attempts := s.attempts + [Attempt(a.name, [], 0, Succeeded)], instances := s1.instances[a.name := j]);
    var b := Attempt(other, [v], 0, Check);
    var s3 := s2.(attempts := s2.attempts + [b], instances := s2.instances[other := j + 1]);
    var p1 := [HastyDelete(a.name)];
    var p3 := p1 + [Begin(a.name, [])] + [RunInit(j, true, true)];
    assert Run(s, []) == s;
    RunSnoc(s, [], HastyDelete(a.name));
    assert [] + [HastyDelete(a.name)] == p1;
    RunSnoc(s, p1, Begin(a.name, []));
    RunSnoc(s, p1 + [Begin(a.name, [])], RunInit(j, true, true));
    assert Run(s, p3) == s2;
    RunSnoc(s, p3, Begin(other, [v]));
    RunSnoc(s, p3 + [Begin(other, [v])], RunInit(j + 1, true, true));
    var p5 := p3 + [Begin(other, [v])] + [RunInit(j + 1, true, true)];
    assert Run(s, p5) == s3;
    TakesVolume(s3, j + 1, v);
    RunSnoc(s, p5, RunCheck(j + 1, true));
    RunSnoc(s, p5 + [RunCheck(j + 1, true)], RunAttach(j + 1, true, true));
    RunSnoc(s, p5 + [RunCheck(j + 1, true)] + [RunAttach(j + 1, true, true)], RunConfirm(j + 1, true));
    assert Takeover(s, k, other)
        == p5 + [RunCheck(j + 1, true)] + [RunAttach(j + 1, true, true)] + [RunConfirm(j + 1, true)];
  }

  /** Undisturbed, a call gets a free volume. */
  lemma TakesVolume(s: Sys, k: nat, v: Volume)
    requires k < |s.attempts| && s.attempts[k].phase == Check && s.attempts[k].index < |s.attempts[k].mounts|
    requires s.attempts[k].mounts[s.attempts[k].index] == v && v in s.attached && s.attached[v] == {} &&
             s.attempts[k].name in s.instances
    ensures var a := s.attempts[k];
            Next(Next(Next(s, RunCheck(k, true)), RunAttach(k, true, true)), RunConfirm(k, true))
            == Put(s.(attached := s.attached[v := {a.name}]), k, Advance(a.(index := a.index + 1)))
  {
    var a := s.attempts[k];
    var s1 := Put(s, k, a.(phase := Attach));
    var s2 := Put(s.(attached := s.attached[v := {a.name}]), k, a.(phase := Confirm));
    assert Next(s, RunCheck(k, true)) == s1;
    assert Next(s1, RunAttach(k, true, true)) == s2 by {
      assert s1.attempts[k := a.(phase := Confirm)] == s2.attempts;
      assert s1.attached[v] + {a.name} == {a.name};
    }
    assert s2.attempts[k := Advance(a.(index := a.index + 1))] == s.attempts[k := Advance(a.(index := a.index + 1))];
  }

  /** The promise needs orderly deletes: delete any instance whose call is about to attach a free volume,
      and a run exists that ends with two created instances on that volume. */
  lemma HastyDeleteCanShare(s: Sys, k: nat, other: Name)
    requires Inv(s) && k < |s.attempts| && s.attempts[k].phase == Attach
    requires var a := s.attempts[k];
             a.mounts[a.index] in s.attached && s.attached[a.mounts[a.index]] == {} && other !in s.instances &&
             other != a.name
    ensures var a, t := s.attempts[k], Run(s, Takeover(s, k, other) + [RunAttach(k, true, true)]);
            Created(t, a.name) && Created(t, other) && Users(t, a.mounts[a.index]) == {a.name, other}
  {
    var a, u := s.attempts[k], Run(s, Takeover(s, k, other));
    TakeoverCreatesBoth(s, k, other);
    RunSnoc(s, Takeover(s, k, other), RunAttach(k, true, true));
    assert u.instances[a.name] != k && u.instances[other] != k;
  }
}
