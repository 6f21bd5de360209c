/** Publication request files and the receipts that acknowledge them
    (internal/computeingress/request_writer.go, request_writer_linux.go). */
module RequestSlots {
  import opened Wrappers

  type Name = string

  const MAX_RECEIPTS: nat := 256

  datatype Request = Request(instance: string, address: string, port: nat, tag: string)

  /** The validity of a request, and the slot file name derived from its instance and port. */
  datatype Env = Env(valid: Request -> bool, digest: (string, nat) -> Name)

  function Slot(env: Env, q: Request): Name {
    env.digest(q.instance, q.port)
  }

  /** A file that was created once: its inode number and its content. Numbers are reused, files are not. */
  datatype File = File(inode: nat, request: Request)

  /** `acked` is the file the receipt acknowledges; `open` while its descriptor is held. */
  datatype Receipt = Receipt(writer: nat, name: Name, request: Request, acked: nat, open: bool, retired: bool)

  /** Every file ever created, the directory's links to them, every receipt ever issued. */
  datatype Disk = Disk(files: seq<File>, dir: map<Name, nat>, receipts: seq<Receipt>)

  datatype Writer = Writer(active: map<Name, nat>, closed: bool)

  datatype Error = Invalid | Unavailable | Missing | Conflict | Stale | Uncertain

  /** How the locked section of one call goes: through, refused before any change, or changed and then refused. */
  datatype Fault = Fine | Before | After

  datatype Reply = Granted(receipt: nat) | Refused(error: Error)

  datatype Outcome = Outcome(disk: Disk, me: Writer, reply: Reply)
  datatype Removal = Removal(disk: Disk, me: Writer, error: Option<Error>)
  datatype SweepReport = SweepReport(disk: Disk, me: Writer, removed: nat, error: Option<Error>)

  // ------------------------------------------------------- files

  /** A file is live while it is linked or some receipt holds it open; the number of a live file is not reused. */
  predicate Live(d: Disk, f: nat) {
    Linked(d, f) || Pinned(d, f)
  }

  predicate Linked(d: Disk, f: nat) {
    exists n :: n in d.dir && d.dir[n] == f
  }

  predicate Pinned(d: Disk, f: nat) {
    exists r :: 0 <= r < |d.receipts| && d.receipts[r].open && d.receipts[r].acked == f
  }

  predicate Unused(d: Disk, inode: nat) {
    forall f :: 0 <= f < |d.files| && d.files[f].inode == inode ==> !Live(d, f)
  }

  /** Two descriptors name the same file as far as `stat` tells. */
  predicate SameFile(d: Disk, f: nat, g: nat) {
    f < |d.files| && g < |d.files| && d.files[f].inode == d.files[g].inode
  }

  /** Write a new file and rename it to a free slot name. */
  function Publish(d: Disk, n: Name, q: Request, inode: nat): Option<Disk> {
    if n in d.dir || !Unused(d, inode) then None
    else Some(d.(files := d.files + [File(inode, q)], dir := d.dir[n := |d.files|]))
  }

  /** Unlink a slot if it still shows the descriptor's inode and the expected request. */
  function Remove(d: Disk, n: Name, held: nat, expected: Request): (Disk, Option<Error>) {
    if n !in d.dir then (d, None)
    else if d.dir[n] >= |d.files| || !SameFile(d, held, d.dir[n]) then (d, Some(Stale))
    else if d.files[d.dir[n]].request != expected then (d, Some(Stale))
    else (d.(dir := d.dir - {n}), None)
  }

  // ------------------------------------------------------- Submit and Resume

  function Retire(d: Disk, r: nat): Disk
    requires r < |d.receipts|
  {
    d.(receipts := d.receipts[r := d.receipts[r].(open := false, retired := true)])
  }

  function Issue(d: Disk, me: Writer, w: nat, n: Name, q: Request, f: nat): Outcome {
    Outcome(d.(receipts := d.receipts + [Receipt(w, n, q, f, true, false)]),
      me.(active := me.active[n := |d.receipts|]), Granted(|d.receipts|))
  }

  /** Hand out the receipt for the file now in the slot: the one held if it is the same file, else a new one. */
  function Adopt(d: Disk, me: Writer, w: nat, n: Name, q: Request, f: nat): Outcome {
    if n in me.active && me.active[n] < |d.receipts| then
      var held := me.active[n];
      if SameFile(d, d.receipts[held].acked, f) then Outcome(d, me, Granted(held))
      else Issue(Retire(d, held), me, w, n, q, f)
    else Issue(d, me, w, n, q, f)
  }

  function Acquire(env: Env, d: Disk, me: Writer, w: nat, q: Request, create: bool, fault: Fault, inode: nat): Outcome {
    var n := Slot(env, q);
    if !env.valid(q) then Outcome(d, me, Refused(Invalid))
    else if me.closed || fault == Before then Outcome(d, me, Refused(Unavailable))
    else if n !in me.active && |me.active| >= MAX_RECEIPTS then Outcome(d, me, Refused(Unavailable))
    else if n in d.dir then
      if d.dir[n] >= |d.files| || d.files[d.dir[n]].request != q then Outcome(d, me, Refused(Conflict))
      else if fault == After then Outcome(d, me, Refused(Uncertain))
      else Adopt(d, me, w, n, q, d.dir[n])
    else if !create then Outcome(d, me, Refused(Missing))
    else
      match Publish(d, n, q, inode)
      case None => Outcome(d, me, Refused(Unavailable))
      case Some(t) => if fault == After then Outcome(t, me, Refused(Uncertain)) else Adopt(t, me, w, n, q, |d.files|)
  }

  // ------------------------------------------------------- Withdraw

  function Release(d: Disk, me: Writer, r: nat): (Disk, Writer)
    requires r < |d.receipts|
  {
    var n := d.receipts[r].name;
    (d.(receipts := d.receipts[r := d.receipts[r].(open := false)]),
     if n in me.active && me.active[n] == r then me.(active := me.active - {n}) else me)
  }

  function Withdraw(d: Disk, me: Writer, w: nat, r: nat, fault: Fault): Removal {
    if r >= |d.receipts| || d.receipts[r].writer != w then Removal(d, me, Some(Stale))
    else if me.closed then Removal(d, me, Some(Unavailable))
    else if d.receipts[r].retired then Removal(d, me, Some(Stale))
    else if !d.receipts[r].open then Removal(d, me, None)
    else if fault == Before then Removal(d, me, Some(Unavailable))
    else
      var (t, error) := Remove(d, d.receipts[r].name, d.receipts[r].acked, d.receipts[r].request);
      if error.Some? then Removal(t, me, error)
      else if fault == After then Removal(t, me, Some(Uncertain))
      else var (u, mine) := Release(t, me, r); Removal(u, mine, None)
  }

  // ------------------------------------------------------- Sweep and Close

  /** What becomes of one name in a sweep: skipped, left because unlinking failed, or unlinked without confirmation. */
  datatype SweepFault = Through | Unreadable | NotRemoved | NotConfirmed

  function RetireActive(d: Disk, me: Writer, n: Name): (Disk, Writer) {
    if n !in me.active || me.active[n] >= |d.receipts| then (d, me)
    else (Retire(d, me.active[n]), me.(active := me.active - {n}))
  }

  function SweepOne(d: Disk, me: Writer, n: Name, keep: Request -> bool, fault: SweepFault): SweepReport {
    if n !in d.dir || d.dir[n] >= |d.files| || fault == Unreadable then SweepReport(d, me, 0, None)
    else if keep(d.files[d.dir[n]].request) then SweepReport(d, me, 0, None)
    else if fault == NotRemoved then SweepReport(d, me, 0, Some(Uncertain))
    else
      var t := d.(dir := d.dir - {n});
      if fault == NotConfirmed then SweepReport(t, me, 0, Some(Uncertain))
      else var (u, mine) := RetireActive(t, me, n); SweepReport(u, mine, 1, None)
  }

  function SweepAll(d: Disk, me: Writer, names: seq<Name>, keep: Request -> bool,
                    faults: Name -> SweepFault): SweepReport {
    if names == [] then SweepReport(d, me, 0, None)
    else
      var before := SweepAll(d, me, names[..|names| - 1], keep, faults);
      if before.error.Some? then before
      else
        var one := SweepOne(before.disk, before.me, names[|names| - 1], keep, faults(names[|names| - 1]));
        one.(removed := before.removed + one.removed)
  }

  /** Drop every descriptor the writer's active receipts hold. */
  function CloseAll(d: Disk, me: Writer): Disk {
    d.(receipts := seq(|d.receipts|, r requires 0 <= r < |d.receipts| =>
      var t := d.receipts[r];
      if t.name in me.active && me.active[t.name] == r then t.(open := false) else t))
  }

  // ------------------------------------------------------- any number of writers

  datatype Sys = Sys(disk: Disk, writers: seq<Writer>)

  datatype Step =
    | DoOpen
    | DoAcquire(w: nat, q: Request, create: bool, fault: Fault, inode: nat)
    | DoWithdraw(w: nat, r: nat, fault: Fault)
    | DoSweep(w: nat, names: seq<Name>, keep: Request -> bool, faults: Name -> SweepFault)
    | DoClose(w: nat)

  function Put(s: Sys, w: nat, d: Disk, me: Writer): Sys
    requires w < |s.writers|
  {
    Sys(d, s.writers[w := me])
  }

  /** One locked call of one writer; a call of a writer that does not exist changes nothing. */
  function Next(env: Env, s: Sys, step: Step): Sys {
    match step
    case DoOpen => s.(writers := s.writers + [Writer(map[], false)])
    case DoAcquire(w, q, create, fault, inode) =>
      if w >= |s.writers| then s
      else var o := Acquire(env, s.disk, s.writers[w], w, q, create, fault, inode); Put(s, w, o.disk, o.me)
    case DoWithdraw(w, r, fault) =>
      if w >= |s.writers| then s
      else var o := Withdraw(s.disk, s.writers[w], w, r, fault); Put(s, w, o.disk, o.me)
    case DoSweep(w, names, keep, faults) =>
      if w >= |s.writers| || s.writers[w].closed then s
      else var o := SweepAll(s.disk, s.writers[w], names, keep, faults); Put(s, w, o.disk, o.me)
    case DoClose(w) =>
      if w >= |s.writers| || s.writers[w].closed then s
      else Put(s, w, CloseAll(s.disk, s.writers[w]), s.writers[w].(closed := true))
  }

  function Run(env: Env, s: Sys, steps: seq<Step>): Sys {
    if steps == [] then s else Next(env, Run(env, s, steps[..|steps| - 1]), steps[|steps| - 1])
  }
}
