/** The promises of the request writer, over every interleaving of cooperating writers. */
module RequestTheorems {
  import opened Wrappers
  import opened RequestSlots
  import opened RequestReceipts

  /** A directory as the first writer finds it: any requests, no receipts. */
  ghost predicate Found(env: Env, s: Sys) {
    DiskOk(env, s.disk) && s.disk.receipts == [] && s.writers == []
  }

  lemma FoundIsInv(env: Env, s: Sys)
    requires Found(env, s)
    ensures Inv(env, s)
  {
  }

  function Content(d: Disk, n: Name): Option<Request> {
    if n in d.dir && d.dir[n] < |d.files| then Some(d.files[d.dir[n]].request) else None
  }

  // ------------------------------------------------------- withdrawing

  /** The receipt can still take its file away. */
  predicate InForce(s: Sys, w: nat, r: nat) {
    w < |s.writers| && r < |s.disk.receipts| && s.disk.receipts[r].writer == w && !s.writers[w].closed &&
    !s.disk.receipts[r].retired && s.disk.receipts[r].open
  }

  predicate InPlace(d: Disk, r: nat) {
    r < |d.receipts| && d.receipts[r].name in d.dir && d.dir[d.receipts[r].name] == d.receipts[r].acked
  }

  /** Withdrawing changes the directory exactly when the very file the receipt acknowledged is
      still in its slot, and then it unlinks that slot and nothing else. */
  lemma WithdrawTakesOnlyItsFile(env: Env, s: Sys, steps: seq<Step>, w: nat, r: nat, fault: Fault)
    requires Found(env, s)
    ensures var t := Run(env, s, steps);
            var u := Next(env, t, DoWithdraw(w, r, fault));
            && u.disk.dir == (if InForce(t, w, r) && fault != Before && InPlace(t.disk, r)
                              then t.disk.dir - {t.disk.receipts[r].name} else t.disk.dir)
            && u.disk.files == t.disk.files
  {
    FoundIsInv(env, s);
    RunKeeps(env, s, steps);
    var t := Run(env, s, steps);
    if InForce(t, w, r) {
      assert ReceiptOk(env, t.disk, r);
      var n := t.disk.receipts[r].name;
      if n in t.disk.dir { HeldFileIsExact(env, t.disk, r, n); }
    }
  }

  /** What Withdraw answers. It succeeds if and only if the receipt is this writer's, not retired, and either given
      back before or in force, its file still in its slot or the slot empty; and then the receipt is given back. */
  lemma WithdrawAnswers(env: Env, s: Sys, w: nat, r: nat, fault: Fault)
    requires Inv(env, s) && w < |s.writers|
    ensures var o := Withdraw(s.disk, s.writers[w], w, r, fault);
            var mine := r < |s.disk.receipts| && s.disk.receipts[r].writer == w;
            && (o.error.None? <==>
                  && mine && !s.writers[w].closed && !s.disk.receipts[r].retired
                  && (s.disk.receipts[r].open ==>
                        fault == Fine && (InPlace(s.disk, r) || s.disk.receipts[r].name !in s.disk.dir)))
            && (o.error.None? ==> !o.disk.receipts[r].open && r !in o.me.active.Values)
            && (o.error == Some(Stale) <==>
                  || !mine
                  || (&& !s.writers[w].closed
                      && (|| s.disk.receipts[r].retired
                          || (&& s.disk.receipts[r].open && fault != Before && s.disk.receipts[r].name in s.disk.dir
                              && !InPlace(s.disk, r)))))
  {
    var d, me := s.disk, s.writers[w];
    if r < |d.receipts| && d.receipts[r].writer == w {
      assert ReceiptOk(env, d, r) && HeldOk(d, me, w, r);
      var n := d.receipts[r].name;
      if d.receipts[r].open && n in d.dir { HeldFileIsExact(env, d, r, n); }
      forall m | m in me.active && me.active[m] == r && !me.closed
        ensures m == n && d.receipts[r].open
      {
        assert ActiveOk(d, me, w, m);
      }
    }
  }

  /** Once the acknowledged file has left its slot, no later withdrawal of the receipt removes
      anything, whoever has recreated the slot since, same request or not, same inode number or not. */
  lemma StaleReceiptIsHarmless(env: Env, s: Sys, steps: seq<Step>, more: seq<Step>, w: nat, r: nat, fault: Fault)
    requires Found(env, s)
    requires r < |Run(env, s, steps).disk.receipts| && !InPlace(Run(env, s, steps).disk, r)
    ensures var t := Run(env, Run(env, s, steps), more);
            Next(env, t, DoWithdraw(w, r, fault)).disk.dir == t.disk.dir
  {
    FoundIsInv(env, s);
    RunKeeps(env, s, steps);
    var before := Run(env, s, steps);
    RunKeeps(env, before, more);
    var t := Run(env, before, more);
    assert ReceiptOk(env, before.disk, r) && SameReceipt(before.disk.receipts[r], t.disk.receipts[r]);
    OnlyUnderItsName(env, before.disk, r);
    OnlyUnderItsName(env, t.disk, r);
    if Linked(t.disk, t.disk.receipts[r].acked) { UnlinkedStays(before.disk, t.disk, t.disk.receipts[r].acked); }
    if InForce(t, w, r) {
      var n := t.disk.receipts[r].name;
      if n in t.disk.dir { HeldFileIsExact(env, t.disk, r, n); }
    }
  }

  /** A retired receipt stays retired: from then on withdrawing it changes nothing at all. */
  lemma RetiredReceiptIsInert(env: Env, s: Sys, more: seq<Step>, w: nat, r: nat, fault: Fault)
    requires Inv(env, s) && r < |s.disk.receipts| && s.disk.receipts[r].retired
    ensures var t := Run(env, s, more);
            Next(env, t, DoWithdraw(w, r, fault)) == t
  {
    RunKeeps(env, s, more);
    var t := Run(env, s, more);
    assert SameReceipt(s.disk.receipts[r], t.disk.receipts[r]);
    if w < |t.writers| { assert t.writers[w := t.writers[w]] == t.writers; }
  }

  // ------------------------------------------------------- submitting again

  /** Submitting (or resuming) an unchanged request returns the same receipt exactly when the
      acknowledged file is still in its slot, whatever happened in between; nothing changes then. */
  lemma ResubmitReturnsSameReceipt(env: Env, s: Sys, more: seq<Step>, w: nat, q: Request, create: bool, inode: nat,
                                   again: bool, other: nat)
    requires Inv(env, s) && w < |s.writers|
    requires Acquire(env, s.disk, s.writers[w], w, q, create, Fine, inode).reply.Granted?
    ensures var first := Acquire(env, s.disk, s.writers[w], w, q, create, Fine, inode);
            var t := Run(env, Next(env, s, DoAcquire(w, q, create, Fine, inode)), more);
            w < |t.writers| && !t.writers[w].closed ==>
              var o := Acquire(env, t.disk, t.writers[w], w, q, again, Fine, other);
              (o.reply == first.reply <==> InPlace(t.disk, first.reply.receipt)) &&
              (InPlace(t.disk, first.reply.receipt) ==> o.disk == t.disk && o.me == t.writers[w])
  {
    var u := Next(env, s, DoAcquire(w, q, create, Fine, inode));
    var r := Acquire(env, s.disk, s.writers[w], w, q, create, Fine, inode).reply.receipt;
    StepKeeps(env, s, DoAcquire(w, q, create, Fine, inode));
    GrantedIsForRequest(env, s, w, q, create, inode);
    RunKeeps(env, u, more);
    var t := Run(env, u, more);
    assert SameReceipt(u.disk.receipts[r], t.disk.receipts[r]);
    if w < |t.writers| && !t.writers[w].closed { ReacquireIff(env, t, w, r, again, other); }
  }

  /** A granted receipt is this writer's, for this request. */
  lemma GrantedIsForRequest(env: Env, s: Sys, w: nat, q: Request, create: bool, inode: nat)
    requires Inv(env, s) && w < |s.writers|
    requires Acquire(env, s.disk, s.writers[w], w, q, create, Fine, inode).reply.Granted?
    ensures var o := Acquire(env, s.disk, s.writers[w], w, q, create, Fine, inode);
            var r := o.reply.receipt;
            r < |o.disk.receipts| && o.disk.receipts[r].writer == w && o.disk.receipts[r].request == q &&
            o.disk.receipts[r].name == Slot(env, q) && env.valid(q) && InPlace(o.disk, r)
  {
    var n, d, me := Slot(env, q), s.disk, s.writers[w];
    var t := if n in d.dir then d else Publish(d, n, q, inode).value;
    if n !in d.dir {
      PublishKeeps(env, d, n, q, inode);
      PublishKeepsWriter(env, d, me, w, n, q, inode);
    }
    if n in me.active {
      var r := me.active[n];
      assert ActiveOk(t, me, w, n) && HeldOk(t, me, w, r) && ReceiptOk(env, t, r);
      HeldFileIsExact(env, t, r, n);
    }
  }

  lemma ReacquireIff(env: Env, s: Sys, w: nat, r: nat, create: bool, inode: nat)
    requires Inv(env, s) && w < |s.writers| && !s.writers[w].closed && r < |s.disk.receipts|
    requires s.disk.receipts[r].writer == w && env.valid(s.disk.receipts[r].request)
    ensures var o := Acquire(env, s.disk, s.writers[w], w, s.disk.receipts[r].request, create, Fine, inode);
            (o.reply == Granted(r) <==> InPlace(s.disk, r)) &&
            (InPlace(s.disk, r) ==> o.disk == s.disk && o.me == s.writers[w])
  {
    var d, me, q, n := s.disk, s.writers[w], s.disk.receipts[r].request, s.disk.receipts[r].name;
    assert ReceiptOk(env, d, r) && HeldOk(d, me, w, r) && ActiveOk(d, me, w, n);
    OnlyUnderItsName(env, d, r);
    var o := Acquire(env, d, me, w, q, create, Fine, inode);
    if InPlace(d, r) {
      assert SameFile(d, d.receipts[r].acked, d.dir[n]);
    } else if n in d.dir {
      if n in me.active { assert HeldOk(d, me, w, me.active[n]); HeldFileIsExact(env, d, me.active[n], n); }
    } else if create && Publish(d, n, q, inode).Some? {
      PublishKeeps(env, d, n, q, inode);
      PublishKeepsWriter(env, d, me, w, n, q, inode);
      var t := Publish(d, n, q, inode).value;
      if n in me.active {
        assert HeldOk(t, me, w, me.active[n]) && ReceiptOk(env, d, me.active[n]);
        HeldFileIsExact(env, t, me.active[n], n);
      }
    }
  }

  // ------------------------------------------------------- creating

  /** Nothing keeps this writer from handling the request: it is valid, the writer is open and has room. */
  predicate Ready(env: Env, me: Writer, q: Request) {
    env.valid(q) && !me.closed && (Slot(env, q) in me.active || |me.active| < MAX_RECEIPTS)
  }

  /** A directory with one more request, in a new file of its own, and everything else as before. */
  predicate Created(a: Disk, b: Disk, n: Name, q: Request, inode: nat) {
    && n !in a.dir && b.dir.Keys == a.dir.Keys + {n} && (forall m :: m in a.dir ==> b.dir[m] == a.dir[m])
    && |b.files| == |a.files| + 1 && b.dir[n] == |a.files| && b.files[|a.files|] == File(inode, q)
    && (forall f :: 0 <= f < |a.files| ==> b.files[f] == a.files[f])
  }

  /** A receipt newly handed out for the file now in slot `n`. */
  predicate NewReceipt(a: Disk, b: Disk, me: Writer, w: nat, n: Name, q: Request, r: nat) {
    && r == |a.receipts| == |b.receipts| - 1 && n in b.dir && b.receipts[r] == Receipt(w, n, q, b.dir[n], true, false)
    && n in me.active && me.active[n] == r
    && (forall i :: 0 <= i < |a.receipts| ==> SameReceipt(a.receipts[i], b.receipts[i]))
  }

  /** Submitting a request whose slot is free creates it: one new file with exactly that request under its slot,
      every other slot as it was, and a new receipt for that file. */
  lemma SubmitCreates(env: Env, s: Sys, w: nat, q: Request, inode: nat)
    requires Inv(env, s) && w < |s.writers| && Ready(env, s.writers[w], q)
    requires Slot(env, q) !in s.disk.dir && Unused(s.disk, inode)
    ensures var o := Acquire(env, s.disk, s.writers[w], w, q, true, Fine, inode);
            && Created(s.disk, o.disk, Slot(env, q), q, inode)
            && o.reply.Granted? && NewReceipt(s.disk, o.disk, o.me, w, Slot(env, q), q, o.reply.receipt)
  {
    var n, d, me := Slot(env, q), s.disk, s.writers[w];
    var t := Publish(d, n, q, inode).value;
    PublishKeeps(env, d, n, q, inode);
    PublishKeepsWriter(env, d, me, w, n, q, inode);
    if n in me.active {
      var r := me.active[n];
      assert ActiveOk(d, me, w, n) && HeldOk(d, me, w, r) && ReceiptOk(env, d, r);
      assert HeldOk(t, me, w, r) && ReceiptOk(env, t, r);
      HeldFileIsExact(env, t, r, n);
    }
  }

  lemma AdoptKeepsFiles(d: Disk, me: Writer, w: nat, n: Name, q: Request, f: nat)
    ensures var o := Adopt(d, me, w, n, q, f);
            o.disk.files == d.files && o.disk.dir == d.dir && o.reply.Granted?
  {
  }

  lemma PublishCreates(d: Disk, n: Name, q: Request, inode: nat)
    ensures Publish(d, n, q, inode).Some? <==> n !in d.dir && Unused(d, inode)
    ensures Publish(d, n, q, inode).Some? ==> Created(d, Publish(d, n, q, inode).value, n, q, inode)
  {
  }

  /** What Submit does in any state. It creates the request if and only if nothing refused it earlier and its slot
      is free, and changes nothing else in the directory; it grants a receipt if and only if nothing fails and the
      request was created or already there; and it never answers that the request is missing. */
  lemma SubmitAnswers(env: Env, d: Disk, me: Writer, w: nat, q: Request, fault: Fault, inode: nat)
    ensures var o := Acquire(env, d, me, w, q, true, fault, inode);
            && ((o.disk.dir == d.dir && o.disk.files == d.files) || Created(d, o.disk, Slot(env, q), q, inode))
            && (Created(d, o.disk, Slot(env, q), q, inode) <==>
                  Ready(env, me, q) && fault != Before && Slot(env, q) !in d.dir && Unused(d, inode))
            && (o.reply.Granted? <==>
                  && Ready(env, me, q) && fault == Fine
                  && if Slot(env, q) in d.dir then Content(d, Slot(env, q)) == Some(q) else Unused(d, inode))
            && o.reply != Refused(Missing) && (o.reply == Refused(Invalid) <==> !env.valid(q))
  {
    var n := Slot(env, q);
    var t := Publish(d, n, q, inode);
    if t.Some? { AdoptKeepsFiles(t.value, me, w, n, q, |d.files|); }
    if n in d.dir { AdoptKeepsFiles(d, me, w, n, q, d.dir[n]); }
    PublishCreates(d, n, q, inode);
  }

  /** Resuming never creates, changes or removes a request, whatever the state. It answers that the request is
      missing if and only if nothing refused it earlier and its slot is free, and grants a receipt if and only if
      the slot holds exactly that request and nothing fails. */
  lemma ResumeNeverCreates(env: Env, d: Disk, me: Writer, w: nat, q: Request, fault: Fault, inode: nat)
    ensures var o := Acquire(env, d, me, w, q, false, fault, inode);
            && o.disk.dir == d.dir && o.disk.files == d.files
            && (o.reply == Refused(Missing) <==> Ready(env, me, q) && fault != Before && Slot(env, q) !in d.dir)
            && (o.reply.Granted? <==> Ready(env, me, q) && fault == Fine && Content(d, Slot(env, q)) == Some(q))
            && (o.reply == Refused(Invalid) <==> !env.valid(q))
  {
  }

  // ------------------------------------------------------- live slots

  /** A different request for a live slot is refused and nothing changes. */
  lemma DifferentRequestIsRefused(env: Env, s: Sys, w: nat, q: Request, create: bool, fault: Fault, inode: nat)
    requires Inv(env, s) && Content(s.disk, Slot(env, q)) !in {None, Some(q)}
    ensures Next(env, s, DoAcquire(w, q, create, fault, inode)) == s
    ensures w < |s.writers| ==>
              var me, n := s.writers[w], Slot(env, q);
              var reply := Acquire(env, s.disk, me, w, q, create, fault, inode).reply;
              reply.Refused? &&
              (env.valid(q) && !me.closed && (n in me.active || |me.active| < MAX_RECEIPTS) && fault != Before <==>
                reply == Refused(Conflict))
  {
    if w < |s.writers| { assert s.writers[w := s.writers[w]] == s.writers; }
  }

  /** In any interleaving a live slot keeps its file, content included, until it is unlinked; and what
      unlinks it is the withdrawal of a receipt for that very file, or a sweep that need not keep its request. */
  lemma LiveSlotIsNeverOverwritten(env: Env, s: Sys, steps: seq<Step>, step: Step, n: Name)
    requires Found(env, s) && n in Run(env, s, steps).disk.dir
    ensures var t := Run(env, s, steps);
            var u := Next(env, t, step);
            var f := t.disk.dir[n];
            f < |t.disk.files| && f < |u.disk.files| && u.disk.files[f] == t.disk.files[f] &&
            (n in u.disk.dir ==> u.disk.dir[n] == f) &&
            (n !in u.disk.dir ==>
              (step.DoWithdraw? && InForce(t, step.w, step.r) && t.disk.receipts[step.r].acked == f) ||
              (step.DoSweep? && n in step.names && !step.keep(t.disk.files[f].request)))
  {
    FoundIsInv(env, s);
    RunKeeps(env, s, steps);
    var t := Run(env, s, steps);
    StepKeeps(env, t, step);
    assert SlotOk(env, t.disk, n);
    match step {
      case DoAcquire(w, q, create, fault, inode) =>
        if w < |t.writers| { AcquireUnlinksNothing(env, t.disk, t.writers[w], w, q, create, fault, inode); }
      case DoWithdraw(w, r, fault) => WithdrawTakesOnlyItsFile(env, s, steps, w, r, fault);
      case DoSweep(w, names, keep, faults) =>
        if w < |t.writers| { SweepTakesOnlyUnkept(t.disk, t.writers[w], names, keep, faults, n); }
      case _ =>
    }
  }

  lemma AcquireUnlinksNothing(env: Env, d: Disk, me: Writer, w: nat, q: Request, create: bool, fault: Fault, inode: nat)
    ensures forall n :: n in d.dir ==> n in Acquire(env, d, me, w, q, create, fault, inode).disk.dir
  {
  }

  lemma SweepOneTakes(d: Disk, me: Writer, m: Name, keep: Request -> bool, fault: SweepFault, n: Name)
    requires n in d.dir
    ensures var o := SweepOne(d, me, m, keep, fault);
            o.disk.files == d.files && (n in o.disk.dir ==> o.disk.dir[n] == d.dir[n]) &&
            (n !in o.disk.dir ==> n == m && d.dir[n] < |d.files| && !keep(d.files[d.dir[n]].request)) &&
            (fault == Through && n == m && d.dir[n] < |d.files| && !keep(d.files[d.dir[n]].request) ==>
              n !in o.disk.dir)
  {
  }

  lemma {:induction false} SweepTakesOnlyUnkept(d: Disk, me: Writer, names: seq<Name>, keep: Request -> bool,
                                                faults: Name -> SweepFault, n: Name)
    requires n in d.dir
    ensures var o := SweepAll(d, me, names, keep, faults);
            o.disk.files == d.files && (n in o.disk.dir ==> o.disk.dir[n] == d.dir[n]) &&
            (n !in o.disk.dir ==> n in names && d.dir[n] < |d.files| && !keep(d.files[d.dir[n]].request))
    decreases |names|
  {
    if names != [] {
      var init := names[..|names| - 1];
      SweepTakesOnlyUnkept(d, me, init, keep, faults, n);
      var before := SweepAll(d, me, init, keep, faults);
      var m := names[|names| - 1];
      if n in before.disk.dir { SweepOneTakes(before.disk, before.me, m, keep, faults(m), n); }
      assert n !in before.disk.dir ==> n !in SweepOne(before.disk, before.me, m, keep, faults(m)).disk.dir;
    }
  }

  /** A sweep that meets no fault removes exactly the listed requests that are not kept. */
  lemma {:induction false} SweepIsExact(env: Env, d: Disk, me: Writer, names: seq<Name>, keep: Request -> bool,
                                        faults: Name -> SweepFault, n: Name)
    requires DiskOk(env, d) && Content(d, n).Some? && forall m :: faults(m) == Through
    ensures var o := SweepAll(d, me, names, keep, faults);
            o.error.None? && (n !in o.disk.dir <==> n in names && !keep(Content(d, n).value))
    decreases |names|
  {
    assert SlotOk(env, d, n);
    if names != [] {
      var init, m := names[..|names| - 1], names[|names| - 1];
      assert names == init + [m];
      SweepIsExact(env, d, me, init, keep, faults, n);
      SweepTakesOnlyUnkept(d, me, init, keep, faults, n);
      var before := SweepAll(d, me, init, keep, faults);
      if n in before.disk.dir { SweepOneTakes(before.disk, before.me, m, keep, faults(m), n); }
      assert n !in before.disk.dir ==> n !in SweepOne(before.disk, before.me, m, keep, faults(m)).disk.dir;
    }
  }

  /** Swept over the whole listing, without a fault, the directory holds exactly what is kept. */
  lemma FullSweepLeavesKept(env: Env, d: Disk, me: Writer, names: seq<Name>, keep: Request -> bool,
                            faults: Name -> SweepFault)
    requires DiskOk(env, d) && (forall m :: faults(m) == Through) && forall n :: n in d.dir <==> n in names
    ensures var o := SweepAll(d, me, names, keep, faults);
            o.disk.dir == map n | n in d.dir && Content(d, n).Some? && keep(Content(d, n).value) :: d.dir[n]
  {
    var o := SweepAll(d, me, names, keep, faults);
    SweepOnlyRemoves(d, me, names, keep, faults);
    forall n | n in d.dir
      ensures n in o.disk.dir <==> Content(d, n).Some? && keep(Content(d, n).value)
      ensures n in o.disk.dir ==> o.disk.dir[n] == d.dir[n]
    {
      assert SlotOk(env, d, n);
      SweepIsExact(env, d, me, names, keep, faults, n);
      SweepTakesOnlyUnkept(d, me, names, keep, faults, n);
    }
  }

  lemma {:induction false} SweepOnlyRemoves(d: Disk, me: Writer, names: seq<Name>, keep: Request -> bool,
                                            faults: Name -> SweepFault)
    ensures forall n :: n in SweepAll(d, me, names, keep, faults).disk.dir ==> n in d.dir
    decreases |names|
  {
    if names != [] { SweepOnlyRemoves(d, me, names[..|names| - 1], keep, faults); }
  }

  /** The reported number is the number of requests removed. */
  lemma {:induction false} SweepCounts(d: Disk, me: Writer, names: seq<Name>, keep: Request -> bool,
                                       faults: Name -> SweepFault)
    requires SweepAll(d, me, names, keep, faults).error.None?
    ensures var o := SweepAll(d, me, names, keep, faults); |o.disk.dir| + o.removed == |d.dir|
    decreases |names|
  {
    if names != [] {
      var init, m := names[..|names| - 1], names[|names| - 1];
      SweepCounts(d, me, init, keep, faults);
      var before := SweepAll(d, me, init, keep, faults);
      SweepOneCounts(before.disk, before.me, m, keep, faults(m));
    }
  }

  lemma SweepOneCounts(d: Disk, me: Writer, n: Name, keep: Request -> bool, fault: SweepFault)
    requires SweepOne(d, me, n, keep, fault).error.None?
    ensures var o := SweepOne(d, me, n, keep, fault); |o.disk.dir| + o.removed == |d.dir|
  {
    if n in d.dir {
      assert d.dir.Keys == (d.dir - {n}).Keys + {n};
      assert |d.dir| == |d.dir.Keys| && |d.dir - {n}| == |(d.dir - {n}).Keys|;
    }
  }
}
