/** The request writer and its directory as objects (internal/computeingress/request_writer.go,
    request_writer_linux.go). */
module RequestWriter {
  import opened Wrappers
  import opened RequestSlots
  import RequestTheorems

  /** The lease directory; receipts are kept in the order they were issued. */
  class Directory {
    var files: seq<File>
    var dir: map<Name, nat>
    var receipts: seq<Receipt>

    function Contents(): Disk
      reads this
    {
      Disk(files, dir, receipts)
    }

    constructor (d: Disk)
      ensures Contents() == d
    {
      files, dir, receipts := d.files, d.dir, d.receipts;
    }

    method Read(n: Name) returns (f: Option<nat>)
      ensures f == if n in dir then Some(dir[n]) else None
    {
      f := if n in dir then Some(dir[n]) else None;
    }

    /** Stage a complete file under a number not in use, check the slot is free, rename. */
    method Publish(n: Name, q: Request, inode: nat) returns (f: Option<nat>)
      modifies this`files, this`dir
      ensures match RequestSlots.Publish(old(Contents()), n, q, inode)
              case None => f.None? && Contents() == old(Contents())
              case Some(t) => f == Some(|old(files)|) && Contents() == t
    {
      if !Unused(Contents(), inode) { return None; }
      var staged := |files|;
      if n in dir { return None; }
      files := files + [File(inode, q)];
      dir := dir[n := staged];
      f := Some(staged);
    }

    method Remove(n: Name, held: nat, expected: Request) returns (error: Option<Error>)
      modifies this`dir
      ensures (Contents(), error) == RequestSlots.Remove(old(Contents()), n, held, expected)
    {
      if n !in dir { return None; }
      var current := dir[n];
      if current >= |files| || !SameFile(Contents(), held, current) { return Some(Stale); }
      if files[current].request != expected { return Some(Stale); }
      dir := dir - {n};
      error := None;
    }
  }

  class RequestWriter {
    const id: nat
    const directory: Directory
    var active: map<Name, nat>
    var closed: bool

    function Me(): Writer
      reads this
    {
      Writer(active, closed)
    }

    constructor (id: nat, directory: Directory)
      ensures this.id == id && this.directory == directory && Me() == Writer(map[], false)
    {
      this.id, this.directory := id, directory;
      active, closed := map[], false;
    }

    method Submit(env: Env, q: Request, fault: Fault, inode: nat) returns (reply: Reply)
      modifies this, directory
      ensures Outcome(directory.Contents(), Me(), reply)
           == Acquire(env, old(directory.Contents()), old(Me()), id, q, true, fault, inode)
      ensures var handled := RequestTheorems.Ready(env, old(Me()), q) && fault != Before;
              var created := handled && Slot(env, q) !in old(directory.dir) && Unused(old(directory.Contents()), inode);
              && (if created then
                    RequestTheorems.Created(old(directory.Contents()), directory.Contents(), Slot(env, q), q, inode)
                  else directory.dir == old(directory.dir) && directory.files == old(directory.files))
              && (reply.Granted? <==>
                    && handled && fault == Fine
                    && (created || RequestTheorems.Content(old(directory.Contents()), Slot(env, q)) == Some(q)))
    {
      reply := Obtain(env, q, true, fault, inode);
      RequestTheorems.SubmitAnswers(env, old(directory.Contents()), old(Me()), id, q, fault, inode);
    }

    method Resume(env: Env, q: Request, fault: Fault) returns (reply: Reply)
      modifies this, directory
      ensures Outcome(directory.Contents(), Me(), reply)
           == Acquire(env, old(directory.Contents()), old(Me()), id, q, false, fault, 0)
      ensures directory.dir == old(directory.dir) && directory.files == old(directory.files)
      ensures var handled := RequestTheorems.Ready(env, old(Me()), q) && fault != Before;
              && (reply == Refused(Missing) <==> handled && Slot(env, q) !in old(directory.dir))
              && (reply.Granted? <==>
                    && handled && fault == Fine
                    && RequestTheorems.Content(old(directory.Contents()), Slot(env, q)) == Some(q))
    {
      reply := Obtain(env, q, false, fault, 0);
      RequestTheorems.ResumeNeverCreates(env, old(directory.Contents()), old(Me()), id, q, fault, 0);
    }

    method Obtain(env: Env, q: Request, create: bool, fault: Fault, inode: nat) returns (reply: Reply)
      modifies this, directory
      ensures Outcome(directory.Contents(), Me(), reply)
           == Acquire(env, old(directory.Contents()), old(Me()), id, q, create, fault, inode)
    {
      if !env.valid(q) { return Refused(Invalid); }
      if closed { return Refused(Unavailable); }
      var n := Slot(env, q);
      if n !in active && |active| >= MAX_RECEIPTS { return Refused(Unavailable); }
      if fault == Before { return Refused(Unavailable); }
      var file := directory.Read(n);
      if file.None? {
        if !create { return Refused(Missing); }
        file := directory.Publish(n, q, inode);
        if file.None? { return Refused(Unavailable); }
      } else if file.value >= |directory.files| || directory.files[file.value].request != q {
        return Refused(Conflict);
      }
      if fault == After { return Refused(Uncertain); }
      reply := Keep(n, q, file.value);
    }

    /** Return the held receipt for the same file; otherwise retire it and issue a new one. */
    method Keep(n: Name, q: Request, f: nat) returns (reply: Reply)
      modifies this, directory
      ensures Outcome(directory.Contents(), Me(), reply) == Adopt(old(directory.Contents()), old(Me()), id, n, q, f)
    {
      if n in active && active[n] < |directory.receipts| {
        var held := active[n];
        if SameFile(directory.Contents(), directory.receipts[held].acked, f) { return Granted(held); }
        directory.receipts := directory.receipts[held := directory.receipts[held].(open := false, retired := true)];
      }
      var r := |directory.receipts|;
      directory.receipts := directory.receipts + [Receipt(id, n, q, f, true, false)];
      active := active[n := r];
      reply := Granted(r);
    }

    method Withdraw(r: nat, fault: Fault) returns (error: Option<Error>)
      modifies this, directory
      ensures Removal(directory.Contents(), Me(), error)
           == RequestSlots.Withdraw(old(directory.Contents()), old(Me()), id, r, fault)
    {
      if r >= |directory.receipts| || directory.receipts[r].writer != id { return Some(Stale); }
      if closed { return Some(Unavailable); }
      var receipt := directory.receipts[r];
      if receipt.retired { return Some(Stale); }
      if !receipt.open { return None; }
      if fault == Before { return Some(Unavailable); }
      error := directory.Remove(receipt.name, receipt.acked, receipt.request);
      if error.Some? { return; }
      if fault == After { return Some(Uncertain); }
      directory.receipts := directory.receipts[r := receipt.(open := false)];
      if receipt.name in active && active[receipt.name] == r { active := active - {receipt.name}; }
    }

    method Sweep(names: seq<Name>, keep: Request -> bool, faults: Name -> SweepFault)
      returns (removed: nat, error: Option<Error>)
      modifies this, directory
      ensures old(closed) ==>
                removed == 0 && error == Some(Unavailable) &&
                directory.Contents() == old(directory.Contents()) && Me() == old(Me())
      ensures !old(closed) ==>
                SweepReport(directory.Contents(), Me(), removed, error)
                == SweepAll(old(directory.Contents()), old(Me()), names, keep, faults)
    {
      if closed { return 0, Some(Unavailable); }
      removed, error := 0, None;
      var i := 0;
      while i < |names|
        invariant i <= |names| && error.None?
        invariant SweepReport(directory.Contents(), Me(), removed, error)
               == SweepAll(old(directory.Contents()), old(Me()), names[..i], keep, faults)
      {
        ghost var d, me, before := directory.Contents(), Me(), removed;
        SweepStep(old(directory.Contents()), old(Me()), names, i, keep, faults);
        var n, fault := names[i], faults(names[i]);
        i := i + 1;
        var file := directory.Read(n);
        if file.Some? && file.value < |directory.files| && fault != Unreadable &&
          !keep(directory.files[file.value].request) {
          if fault == NotRemoved {
            error := Some(Uncertain);
          } else {
            error := directory.Remove(n, file.value, directory.files[file.value].request);
            if fault == NotConfirmed {
              error := Some(Uncertain);
            } else {
              removed := removed + 1;
              if n in active && active[n] < |directory.receipts| {
                var r := active[n];
                directory.receipts := directory.receipts[r := directory.receipts[r].(open := false, retired := true)];
                active := active - {n};
              }
            }
          }
        }
        assert SweepReport(directory.Contents(), Me(), removed - before, error) == SweepOne(d, me, n, keep, fault);
        if error.Some? {
          SweepStops(old(directory.Contents()), old(Me()), names, i, keep, faults);
          return;
        }
      }
      assert names[..i] == names;
    }

    method Close()
      modifies this, directory
      ensures Me() == old(Me()).(closed := true)
      ensures directory.Contents() == if old(closed) then old(directory.Contents())
              else CloseAll(old(directory.Contents()), old(Me()))
    {
      if closed { return; }
      closed := true;
      var i := 0;
      ghost var d, me := directory.Contents(), Me();
      while i < |directory.receipts|
        invariant i <= |directory.receipts| == |d.receipts| && Me() == me && closed
        invariant directory.files == d.files && directory.dir == d.dir
        invariant forall r :: 0 <= r < i ==> directory.receipts[r] == CloseAll(d, me).receipts[r]
        invariant forall r :: i <= r < |d.receipts| ==> directory.receipts[r] == d.receipts[r]
      {
        var receipt := directory.receipts[i];
        if receipt.name in active && active[receipt.name] == i {
          directory.receipts := directory.receipts[i := receipt.(open := false)];
        }
        i := i + 1;
      }
      assert directory.receipts == CloseAll(d, me).receipts;
    }
  }

  lemma SweepStep(d: Disk, me: Writer, names: seq<Name>, i: nat, keep: Request -> bool, faults: Name -> SweepFault)
    requires i < |names|
    ensures var before := SweepAll(d, me, names[..i], keep, faults);
            SweepAll(d, me, names[..i + 1], keep, faults) ==
            if before.error.Some? then before
            else
              var one := SweepOne(before.disk, before.me, names[i], keep, faults(names[i]));
              one.(removed := before.removed + one.removed)
  {
    assert names[..i + 1][..i] == names[..i];
  }

  /** A sweep that failed part-way reports just what it had done. */
  lemma {:induction false} SweepStops(d: Disk, me: Writer, names: seq<Name>, i: nat, keep: Request -> bool,
                                      faults: Name -> SweepFault)
    requires i <= |names| && SweepAll(d, me, names[..i], keep, faults).error.Some?
    ensures SweepAll(d, me, names, keep, faults) == SweepAll(d, me, names[..i], keep, faults)
    decreases |names|
  {
    if i == |names| {
      assert names[..i] == names;
    } else {
      assert names[..|names| - 1][..i] == names[..i];
      SweepStops(d, me, names[..|names| - 1], i, keep, faults);
    }
  }
}
