/** What receipts guarantee in every interleaving of cooperating request writers. */
module RequestReceipts {
  import opened Wrappers
  import opened RequestSlots

  // ------------------------------------------------------- the invariant

  predicate SlotOk(env: Env, d: Disk, n: Name) {
    n in d.dir ==> d.dir[n] < |d.files| && n == Slot(env, d.files[d.dir[n]].request)
  }

  predicate ReceiptOk(env: Env, d: Disk, r: nat) {
    r < |d.receipts| ==>
      var t := d.receipts[r];
      t.acked < |d.files| && d.files[t.acked].request == t.request && t.name == Slot(env, t.request) &&
      (t.open ==> !t.retired)
  }

  /** Live files have different inode numbers. */
  predicate Apart(d: Disk, f: nat, g: nat) {
    f < |d.files| && g < |d.files| && Live(d, f) && Live(d, g) && d.files[f].inode == d.files[g].inode ==> f == g
  }

  ghost predicate DiskOk(env: Env, d: Disk) {
    (forall n :: SlotOk(env, d, n)) && (forall r :: ReceiptOk(env, d, r)) && (forall f, g :: Apart(d, f, g))
  }

  /** Receipt `r` is the writer's active receipt of its slot. */
  predicate Active(d: Disk, me: Writer, r: nat) {
    r < |d.receipts| && d.receipts[r].name in me.active && me.active[d.receipts[r].name] == r
  }

  /** A receipt of an open writer is held open exactly while it is active, and surely while its file is in place. */
  predicate HeldOk(d: Disk, me: Writer, w: nat, r: nat) {
    r < |d.receipts| && d.receipts[r].writer == w ==>
      (d.receipts[r].open <==> !me.closed && Active(d, me, r)) &&
      (!me.closed && Linked(d, d.receipts[r].acked) ==> d.receipts[r].open)
  }

  predicate ActiveOk(d: Disk, me: Writer, w: nat, n: Name) {
    n in me.active ==>
      me.active[n] < |d.receipts| && d.receipts[me.active[n]].writer == w &&
      d.receipts[me.active[n]].name == n
  }

  ghost predicate WriterOk(d: Disk, me: Writer, w: nat) {
    (forall r :: HeldOk(d, me, w, r)) && (forall n :: ActiveOk(d, me, w, n))
  }

  ghost predicate Inv(env: Env, s: Sys) {
    DiskOk(env, s.disk) && (forall w :: 0 <= w < |s.writers| ==> WriterOk(s.disk, s.writers[w], w)) &&
    forall r :: 0 <= r < |s.disk.receipts| ==> s.disk.receipts[r].writer < |s.writers|
  }

  /** A held descriptor and a slot with the same inode number are the same file: both are live. */
  lemma HeldFileIsExact(env: Env, d: Disk, r: nat, n: Name)
    requires DiskOk(env, d) && r < |d.receipts| && d.receipts[r].open && n in d.dir
    ensures SameFile(d, d.receipts[r].acked, d.dir[n]) <==> d.receipts[r].acked == d.dir[n]
  {
    assert SlotOk(env, d, n) && ReceiptOk(env, d, r);
    assert Apart(d, d.receipts[r].acked, d.dir[n]);
    assert Linked(d, d.dir[n]) && Pinned(d, d.receipts[r].acked);
  }

  // ------------------------------------------------------- what a step may do to the others

  /** Files are only added; links are only added for new files; receipts keep what they acknowledge. */
  ghost predicate Grows(a: Disk, b: Disk) {
    |a.files| <= |b.files| && (forall f :: 0 <= f < |a.files| ==> b.files[f] == a.files[f]) &&
    (forall n :: n in b.dir && (n !in a.dir || b.dir[n] != a.dir[n]) ==> b.dir[n] >= |a.files|) &&
    |a.receipts| <= |b.receipts| &&
    (forall r :: 0 <= r < |a.receipts| ==> SameReceipt(a.receipts[r], b.receipts[r]))
  }

  /** No slot changes hands in one step: it stays, is removed, or was free. */
  ghost predicate NoOverwrite(a: Disk, b: Disk) {
    forall n :: n in a.dir && n in b.dir ==> b.dir[n] == a.dir[n]
  }

  predicate SameReceipt(a: Receipt, b: Receipt) {
    b == a.(open := b.open, retired := b.retired) && (a.retired ==> b.retired) && (b.open ==> b == a)
  }

  /** A step of writer `w` leaves the receipts of every other writer alone. */
  ghost predicate Spares(a: Disk, b: Disk, w: nat) {
    |a.receipts| <= |b.receipts| &&
    (forall r :: 0 <= r < |a.receipts| && a.receipts[r].writer != w ==> b.receipts[r] == a.receipts[r]) &&
    (forall r :: |a.receipts| <= r < |b.receipts| ==> b.receipts[r].writer == w)
  }

  /** A step of `w`: everything stays well-formed. */
  ghost predicate Sound(env: Env, a: Disk, b: Disk, me: Writer, w: nat) {
    DiskOk(env, b) && WriterOk(b, me, w) && Grows(a, b) && NoOverwrite(a, b) && Spares(a, b, w)
  }

  lemma GrowsTransitive(a: Disk, b: Disk, c: Disk)
    requires Grows(a, b) && Grows(b, c)
    ensures Grows(a, c)
  {
    forall r | 0 <= r < |a.receipts|
      ensures SameReceipt(a.receipts[r], c.receipts[r])
    {
      assert SameReceipt(a.receipts[r], b.receipts[r]) && SameReceipt(b.receipts[r], c.receipts[r]);
    }
  }

  /** An unlinked file stays unlinked. */
  lemma UnlinkedStays(a: Disk, b: Disk, f: nat)
    requires Grows(a, b) && f < |a.files| && Linked(b, f)
    ensures Linked(a, f)
  {
    var n :| n in b.dir && b.dir[n] == f;
    assert n in a.dir && a.dir[n] == f;
  }

  /** Other writers do not notice. */
  lemma OthersKeep(a: Disk, b: Disk, w: nat, other: Writer, v: nat)
    requires Grows(a, b) && Spares(a, b, w) && v != w && WriterOk(a, other, v)
    requires forall r :: 0 <= r < |a.receipts| ==> a.receipts[r].acked < |a.files|
    ensures WriterOk(b, other, v)
  {
    forall r: nat
      ensures HeldOk(b, other, v, r)
    {
      assert HeldOk(a, other, v, r);
      if r < |a.receipts| && Linked(b, a.receipts[r].acked) { UnlinkedStays(a, b, a.receipts[r].acked); }
    }
    forall n
      ensures ActiveOk(b, other, v, n)
    {
      assert ActiveOk(a, other, v, n);
    }
  }

  // ------------------------------------------------------- single changes

  /** Losing links and descriptors keeps live files apart. */
  lemma FewerLiveKeeps(env: Env, a: Disk, b: Disk)
    requires DiskOk(env, a) && b.files == a.files && Grows(a, b) && |b.receipts| == |a.receipts|
    requires forall n :: n in b.dir ==> n in a.dir && b.dir[n] == a.dir[n]
    ensures DiskOk(env, b)
  {
    forall n
      ensures SlotOk(env, b, n)
    {
      assert SlotOk(env, a, n);
    }
    forall r: nat
      ensures ReceiptOk(env, b, r)
    {
      assert ReceiptOk(env, a, r);
      if r < |a.receipts| { assert SameReceipt(a.receipts[r], b.receipts[r]); }
    }
    forall f: nat, g: nat
      ensures Apart(b, f, g)
    {
      if f < |a.files| { LiveBefore(a, b, f); }
      if g < |a.files| { LiveBefore(a, b, g); }
      assert Apart(a, f, g);
    }
  }

  lemma LiveBefore(a: Disk, b: Disk, f: nat)
    requires Grows(a, b) && |b.receipts| == |a.receipts| && f < |a.files|
    ensures Live(b, f) ==> Live(a, f)
  {
    if Linked(b, f) { UnlinkedStays(a, b, f); }
    if Pinned(b, f) {
      var r :| 0 <= r < |b.receipts| && b.receipts[r].open && b.receipts[r].acked == f;
      assert SameReceipt(a.receipts[r], b.receipts[r]);
    }
  }

  /** A new file under an unused number. */
  lemma PublishKeeps(env: Env, d: Disk, n: Name, q: Request, inode: nat)
    requires DiskOk(env, d) && n == Slot(env, q) && Publish(d, n, q, inode).Some?
    ensures var t := Publish(d, n, q, inode).value;
            DiskOk(env, t) && Grows(d, t) && NoOverwrite(d, t) && t.receipts == d.receipts && n in t.dir &&
            t.dir[n] == |d.files|
  {
    var t := Publish(d, n, q, inode).value;
    forall m
      ensures SlotOk(env, t, m)
    {
      assert SlotOk(env, d, m);
    }
    forall r: nat
      ensures ReceiptOk(env, t, r)
    {
      assert ReceiptOk(env, d, r);
    }
    assert forall f: nat :: f < |d.files| && Live(t, f) ==> Live(d, f);
    forall f: nat, g: nat
      ensures Apart(t, f, g)
    {
      assert Apart(d, f, g);
    }
  }

  lemma PublishKeepsWriter(env: Env, d: Disk, me: Writer, w: nat, n: Name, q: Request, inode: nat)
    requires DiskOk(env, d) && WriterOk(d, me, w) && Publish(d, n, q, inode).Some?
    ensures WriterOk(Publish(d, n, q, inode).value, me, w)
  {
    var t := Publish(d, n, q, inode).value;
    forall r: nat
      ensures HeldOk(t, me, w, r)
    {
      assert HeldOk(d, me, w, r) && ReceiptOk(env, d, r);
      if r < |d.receipts| { assert Linked(t, d.receipts[r].acked) ==> Linked(d, d.receipts[r].acked); }
    }
    forall m
      ensures ActiveOk(t, me, w, m)
    {
      assert ActiveOk(d, me, w, m);
    }
  }

  /** A new receipt for the file in the slot, when the writer has none active there. */
  lemma IssueKeeps(env: Env, d: Disk, me: Writer, w: nat, n: Name, q: Request)
    requires DiskOk(env, d) && WriterOk(d, me, w) && !me.closed && n !in me.active
    requires n in d.dir && d.dir[n] < |d.files| && d.files[d.dir[n]].request == q && n == Slot(env, q)
    ensures var o := Issue(d, me, w, n, q, d.dir[n]);
            Sound(env, d, o.disk, o.me, w)
  {
    var o := Issue(d, me, w, n, q, d.dir[n]);
    IssueKeepsDisk(env, d, me, w, n, q);
    IssueKeepsWriter(env, d, me, w, n, q);
  }

  lemma IssueKeepsDisk(env: Env, d: Disk, me: Writer, w: nat, n: Name, q: Request)
    requires DiskOk(env, d) && n in d.dir && d.dir[n] < |d.files| && d.files[d.dir[n]].request == q && n == Slot(env, q)
    ensures var t := Issue(d, me, w, n, q, d.dir[n]).disk;
            DiskOk(env, t) && Grows(d, t) && NoOverwrite(d, t) && Spares(d, t, w)
  {
    var t := Issue(d, me, w, n, q, d.dir[n]).disk;
    assert Linked(d, d.dir[n]);
    forall m
      ensures SlotOk(env, t, m)
    {
      assert SlotOk(env, d, m);
    }
    forall r: nat
      ensures ReceiptOk(env, t, r)
    {
      assert ReceiptOk(env, d, r);
    }
    assert forall f: nat :: Live(t, f) ==> Live(d, f);
    forall f: nat, g: nat
      ensures Apart(t, f, g)
    {
      assert Apart(d, f, g);
    }
  }

  lemma IssueKeepsWriter(env: Env, d: Disk, me: Writer, w: nat, n: Name, q: Request)
    requires DiskOk(env, d) && WriterOk(d, me, w) && !me.closed && n !in me.active
    requires n in d.dir && d.dir[n] < |d.files| && d.files[d.dir[n]].request == q && n == Slot(env, q)
    ensures var o := Issue(d, me, w, n, q, d.dir[n]);
            WriterOk(o.disk, o.me, w)
  {
    var o := Issue(d, me, w, n, q, d.dir[n]);
    forall r: nat
      ensures HeldOk(o.disk, o.me, w, r)
    {
      assert HeldOk(d, me, w, r) && ReceiptOk(env, d, r);
      if r < |d.receipts| { assert Linked(o.disk, d.receipts[r].acked) ==> Linked(d, d.receipts[r].acked); }
    }
    forall m
      ensures ActiveOk(o.disk, o.me, w, m)
    {
      assert ActiveOk(d, me, w, m);
    }
  }

  /** Letting go of an active receipt whose file is no longer in place. */
  lemma LetGoKeeps(env: Env, d: Disk, me: Writer, w: nat, r: nat, retired: bool)
    requires DiskOk(env, d) && WriterOk(d, me, w) && !me.closed && Active(d, me, r)
    requires !Linked(d, d.receipts[r].acked)
    ensures var gone := d.receipts[r].(open := false, retired := retired || d.receipts[r].retired);
            var t := d.(receipts := d.receipts[r := gone]);
            Sound(env, d, t, me.(active := me.active - {d.receipts[r].name}), w)
  {
    var gone := d.receipts[r].(open := false, retired := retired || d.receipts[r].retired);
    var t := d.(receipts := d.receipts[r := gone]);
    var mine := me.(active := me.active - {d.receipts[r].name});
    assert ActiveOk(d, me, w, d.receipts[r].name);
    assert Grows(d, t);
    FewerLiveKeeps(env, d, t);
    forall k: nat
      ensures HeldOk(t, mine, w, k)
    {
      assert HeldOk(d, me, w, k);
      if k < |d.receipts| { assert Linked(t, d.receipts[k].acked) <==> Linked(d, d.receipts[k].acked); }
    }
    forall n
      ensures ActiveOk(t, mine, w, n)
    {
      assert ActiveOk(d, me, w, n);
    }
  }

  lemma UnlinkKeeps(env: Env, d: Disk, n: Name, me: Writer, w: nat)
    requires DiskOk(env, d) && WriterOk(d, me, w)
    ensures var t := d.(dir := d.dir - {n});
            Sound(env, d, t, me, w)
  {
    var t := d.(dir := d.dir - {n});
    assert Grows(d, t);
    FewerLiveKeeps(env, d, t);
    forall r: nat
      ensures HeldOk(t, me, w, r)
    {
      assert HeldOk(d, me, w, r);
      if r < |d.receipts| { assert Linked(t, d.receipts[r].acked) ==> Linked(d, d.receipts[r].acked); }
    }
    forall m
      ensures ActiveOk(t, me, w, m)
    {
      assert ActiveOk(d, me, w, m);
    }
  }

  /** The file of a slot name that is gone, or holds another file, is linked nowhere. */
  lemma OnlyUnderItsName(env: Env, d: Disk, r: nat)
    requires DiskOk(env, d) && r < |d.receipts|
    ensures Linked(d, d.receipts[r].acked) <==>
              d.receipts[r].name in d.dir &&
              d.dir[d.receipts[r].name] == d.receipts[r].acked
  {
    assert ReceiptOk(env, d, r);
    if Linked(d, d.receipts[r].acked) {
      var n :| n in d.dir && d.dir[n] == d.receipts[r].acked;
      assert SlotOk(env, d, n);
    }
  }

  // ------------------------------------------------------- every call

  lemma SoundThen(env: Env, a: Disk, b: Disk, c: Disk, me: Writer, mine: Writer, w: nat)
    requires Sound(env, a, b, me, w) && Sound(env, b, c, mine, w)
    requires forall n :: n in a.dir && n in c.dir ==> n in b.dir
    ensures Sound(env, a, c, mine, w)
  {
    GrowsTransitive(a, b, c);
  }

  lemma NothingIsSound(env: Env, d: Disk, me: Writer, w: nat)
    requires DiskOk(env, d) && WriterOk(d, me, w)
    ensures Sound(env, d, d, me, w)
  {
  }

  lemma AdoptKeeps(env: Env, d: Disk, me: Writer, w: nat, n: Name, q: Request)
    requires DiskOk(env, d) && WriterOk(d, me, w) && !me.closed
    requires n in d.dir && d.dir[n] < |d.files| && d.files[d.dir[n]].request == q && n == Slot(env, q)
    ensures var o := Adopt(d, me, w, n, q, d.dir[n]);
            Sound(env, d, o.disk, o.me, w)
  {
    if n in me.active {
      var r := me.active[n];
      assert ActiveOk(d, me, w, n) && HeldOk(d, me, w, r);
      HeldFileIsExact(env, d, r, n);
      OnlyUnderItsName(env, d, r);
      if d.receipts[r].acked == d.dir[n] {
        NothingIsSound(env, d, me, w);
      } else {
        var mine := me.(active := me.active - {n});
        LetGoKeeps(env, d, me, w, r, true);
        var t := Retire(d, r);
        IssueKeeps(env, t, mine, w, n, q);
        var o := Issue(t, mine, w, n, q, d.dir[n]);
        SoundThen(env, d, t, o.disk, mine, o.me, w);
        assert o.me.active == me.active[n := |t.receipts|];
        assert o == Issue(t, me, w, n, q, d.dir[n]);
      }
    } else {
      IssueKeeps(env, d, me, w, n, q);
    }
  }

  lemma AcquireKeeps(env: Env, d: Disk, me: Writer, w: nat, q: Request, create: bool, fault: Fault, inode: nat)
    requires DiskOk(env, d) && WriterOk(d, me, w)
    ensures var o := Acquire(env, d, me, w, q, create, fault, inode);
            Sound(env, d, o.disk, o.me, w)
  {
    var n := Slot(env, q);
    NothingIsSound(env, d, me, w);
    if !me.closed {
      if n in d.dir {
        assert SlotOk(env, d, n);
        if d.files[d.dir[n]].request == q { AdoptKeeps(env, d, me, w, n, q); }
      } else if Publish(d, n, q, inode).Some? {
        var t := Publish(d, n, q, inode).value;
        PublishKeeps(env, d, n, q, inode);
        PublishKeepsWriter(env, d, me, w, n, q, inode);
        AdoptKeeps(env, t, me, w, n, q);
        var o := Adopt(t, me, w, n, q, |d.files|);
        assert Sound(env, d, t, me, w);
        SoundThen(env, d, t, o.disk, me, o.me, w);
      }
    }
  }

  lemma WithdrawKeeps(env: Env, d: Disk, me: Writer, w: nat, r: nat, fault: Fault)
    requires DiskOk(env, d) && WriterOk(d, me, w)
    ensures var o := Withdraw(d, me, w, r, fault);
            Sound(env, d, o.disk, o.me, w)
  {
    NothingIsSound(env, d, me, w);
    if r < |d.receipts| && d.receipts[r].writer == w && !me.closed && d.receipts[r].open {
      assert HeldOk(d, me, w, r);
      var n := d.receipts[r].name;
      var (t, error) := Remove(d, n, d.receipts[r].acked, d.receipts[r].request);
      UnlinkKeeps(env, d, n, me, w);
      if error.None? {
        if n in d.dir { HeldFileIsExact(env, d, r, n); }
        OnlyUnderItsName(env, t, r);
        LetGoKeeps(env, t, me, w, r, false);
        var (u, mine) := Release(t, me, r);
        SoundThen(env, d, t, u, me, mine, w);
      }
    }
  }

  lemma SweepOneKeeps(env: Env, d: Disk, me: Writer, w: nat, n: Name, keep: Request -> bool, fault: SweepFault)
    requires DiskOk(env, d) && WriterOk(d, me, w) && !me.closed
    ensures var o := SweepOne(d, me, n, keep, fault);
            Sound(env, d, o.disk, o.me, w) && !o.me.closed && forall m :: m in o.disk.dir ==> m in d.dir
  {
    NothingIsSound(env, d, me, w);
    UnlinkKeeps(env, d, n, me, w);
    var t := d.(dir := d.dir - {n});
    if n in me.active {
      var r := me.active[n];
      assert ActiveOk(t, me, w, n);
      OnlyUnderItsName(env, t, r);
      LetGoKeeps(env, t, me, w, r, true);
      SoundThen(env, d, t, Retire(t, r), me, me.(active := me.active - {n}), w);
    }
  }

  lemma {:induction false} SweepKeeps(env: Env, d: Disk, me: Writer, w: nat, names: seq<Name>, keep: Request -> bool,
                                      faults: Name -> SweepFault)
    requires DiskOk(env, d) && WriterOk(d, me, w) && !me.closed
    ensures var o := SweepAll(d, me, names, keep, faults);
            Sound(env, d, o.disk, o.me, w) && !o.me.closed && forall m :: m in o.disk.dir ==> m in d.dir
    decreases |names|
  {
    if names == [] {
      NothingIsSound(env, d, me, w);
    } else {
      var n := names[|names| - 1];
      SweepKeeps(env, d, me, w, names[..|names| - 1], keep, faults);
      var before := SweepAll(d, me, names[..|names| - 1], keep, faults);
      if before.error.None? {
        SweepOneKeeps(env, before.disk, before.me, w, n, keep, faults(n));
        var one := SweepOne(before.disk, before.me, n, keep, faults(n));
        SoundThen(env, d, before.disk, one.disk, before.me, one.me, w);
      }
    }
  }

  lemma CloseKeeps(env: Env, d: Disk, me: Writer, w: nat)
    requires DiskOk(env, d) && WriterOk(d, me, w)
    ensures Sound(env, d, CloseAll(d, me), me.(closed := true), w)
  {
    var t, mine := CloseAll(d, me), me.(closed := true);
    forall r | 0 <= r < |d.receipts|
      ensures d.receipts[r].writer != w ==> t.receipts[r] == d.receipts[r]
    {
      assert ActiveOk(d, me, w, d.receipts[r].name);
    }
    assert Grows(d, t);
    FewerLiveKeeps(env, d, t);
    forall r: nat
      ensures HeldOk(t, mine, w, r)
    {
      assert HeldOk(d, me, w, r);
    }
    forall n
      ensures ActiveOk(t, mine, w, n)
    {
      assert ActiveOk(d, me, w, n);
    }
  }

  // ------------------------------------------------------- every interleaving

  lemma PutKeeps(env: Env, s: Sys, w: nat, d: Disk, me: Writer)
    requires Inv(env, s) && w < |s.writers| && Sound(env, s.disk, d, me, w)
    ensures Inv(env, Put(s, w, d, me))
  {
    var t := Put(s, w, d, me);
    forall r | 0 <= r < |s.disk.receipts|
      ensures s.disk.receipts[r].acked < |s.disk.files|
    {
      assert ReceiptOk(env, s.disk, r);
    }
    forall v | 0 <= v < |t.writers|
      ensures WriterOk(d, t.writers[v], v)
    {
      if v != w { OthersKeep(s.disk, d, w, s.writers[v], v); }
    }
    forall r | 0 <= r < |d.receipts|
      ensures d.receipts[r].writer < |t.writers|
    {
      if r < |s.disk.receipts| { assert SameReceipt(s.disk.receipts[r], d.receipts[r]); }
    }
  }

  lemma StepKeeps(env: Env, s: Sys, step: Step)
    requires Inv(env, s)
    ensures Inv(env, Next(env, s, step)) && Grows(s.disk, Next(env, s, step).disk) &&
            NoOverwrite(s.disk, Next(env, s, step).disk)
  {
    match step {
      case DoOpen => OpenKeeps(env, s);
      case DoAcquire(w, q, create, fault, inode) =>
        if w < |s.writers| {
          AcquireKeeps(env, s.disk, s.writers[w], w, q, create, fault, inode);
          var o := Acquire(env, s.disk, s.writers[w], w, q, create, fault, inode);
          PutKeeps(env, s, w, o.disk, o.me);
        }
      case DoWithdraw(w, r, fault) =>
        if w < |s.writers| {
          WithdrawKeeps(env, s.disk, s.writers[w], w, r, fault);
          var o := Withdraw(s.disk, s.writers[w], w, r, fault);
          PutKeeps(env, s, w, o.disk, o.me);
        }
      case DoSweep(w, names, keep, faults) =>
        if w < |s.writers| && !s.writers[w].closed {
          SweepKeeps(env, s.disk, s.writers[w], w, names, keep, faults);
          var o := SweepAll(s.disk, s.writers[w], names, keep, faults);
          PutKeeps(env, s, w, o.disk, o.me);
        }
      case DoClose(w) =>
        if w < |s.writers| && !s.writers[w].closed {
          CloseKeeps(env, s.disk, s.writers[w], w);
          PutKeeps(env, s, w, CloseAll(s.disk, s.writers[w]), s.writers[w].(closed := true));
        }
    }
  }

  lemma OpenKeeps(env: Env, s: Sys)
    requires Inv(env, s)
    ensures Inv(env, s.(writers := s.writers + [Writer(map[], false)]))
  {
    var w, me := |s.writers|, Writer(map[], false);
    forall r: nat
      ensures HeldOk(s.disk, me, w, r)
    {
    }
    assert WriterOk(s.disk, me, w);
  }

  lemma {:induction false} RunKeeps(env: Env, s: Sys, steps: seq<Step>)
    requires Inv(env, s)
    ensures Inv(env, Run(env, s, steps)) && Grows(s.disk, Run(env, s, steps).disk)
    decreases |steps|
  {
    if steps != [] {
      var before := Run(env, s, steps[..|steps| - 1]);
      RunKeeps(env, s, steps[..|steps| - 1]);
      StepKeeps(env, before, steps[|steps| - 1]);
      GrowsTransitive(s.disk, before.disk, Run(env, s, steps).disk);
    }
  }
}
