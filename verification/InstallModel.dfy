/**
 The update transaction over a directory-like disk: managed entries are moved to a backup and replaced from the
 staged package, one name at a time, and any single operation may fail.

 A disk is three directories of top-level entries, each of which is moved as a whole.
 */
module InstallModel {
  import opened Bytes

  datatype Entry = File(bytes: seq<byte>) | Folder(entries: map<string, Entry>)

  datatype Disk = Disk(install: map<string, Entry>, package: map<string, Entry>, backup: map<string, Entry>)

  /** What one name means in each of the three directories. */
  datatype Spot = Spot(install: Option<Entry>, package: Option<Entry>, backup: Option<Entry>)

  function Get(m: map<string, Entry>, n: string): Option<Entry> {
    if n in m then Some(m[n]) else None
  }

  function Set(m: map<string, Entry>, n: string, e: Option<Entry>): (r: map<string, Entry>)
    ensures forall k :: Get(r, k) == if k == n then e else Get(m, k)
  {
    if e.Some? then m[n := e.value] else m - {n}
  }

  function At(d: Disk, n: string): Spot {
    Spot(Get(d.install, n), Get(d.package, n), Get(d.backup, n))
  }

  function Put(d: Disk, n: string, s: Spot): (r: Disk)
    ensures forall k :: At(r, k) == if k == n then s else At(d, k)
  {
    Disk(Set(d.install, n, s.install), Set(d.package, n, s.package), Set(d.backup, n, s.backup))
  }

  lemma SameEverywhere(a: map<string, Entry>, b: map<string, Entry>)
    requires forall n :: Get(a, n) == Get(b, n)
    ensures a == b
  {
    forall n ensures n in a <==> n in b
    {
      assert Get(a, n) == Get(b, n);
    }
    forall n | n in a ensures a[n] == b[n]
    {
      assert Get(a, n) == Get(b, n);
    }
  }

  // ----- failures

  /** Operation number `i` works, or fails; a removal that fails may leave anything of the entry behind. */
  datatype Fault = Works | Fails(left: Option<Entry>)

  type Faults = nat -> Fault

  /** What a sequence of operations did: the disk after each one, and whether it ended in an error. */
  datatype Ran = Ran(disk: Disk, op: nat, trace: seq<Disk>, failed: bool)

  // ----- apply

  /** Backs up what is installed under this name, then moves the new entry in. The hook between may fail too. */
  function ApplyOne(d: Disk, n: string, f: Faults, op: nat): Ran {
    var s := At(d, n);
    if s.install.Some? && f(op).Fails? then Ran(d, op + 3, [], true)
    else
      var backed := if s.install.Some? then Put(d, n, Spot(None, s.package, s.install)) else d;
      if f(op + 1).Fails? || f(op + 2).Fails? || s.package.None? then Ran(backed, op + 3, [backed], true)
      else
        var placed := Put(backed, n, Spot(s.package, None, At(backed, n).backup));
        Ran(placed, op + 3, [backed, placed], false)
  }

  function ApplyFrom(d: Disk, names: seq<string>, f: Faults, op: nat): Ran
    decreases |names|
  {
    if names == [] then Ran(d, op, [], false)
    else
      var one := ApplyOne(d, names[0], f, op);
      if one.failed then one
      else
        var r := ApplyFrom(one.disk, names[1..], f, one.op);
        r.(trace := one.trace + r.trace)
  }

  // ----- rollback

  /** Removing what is not there succeeds. */
  function Removed(s: Spot, fault: Fault): (Spot, bool) {
    if s.install.None? then (s, true)
    else if fault.Works? then (s.(install := None), true)
    else (s.(install := fault.left), false)
  }

  function RollbackOne(d: Disk, n: string, f: Faults, op: nat): Ran {
    var s := At(d, n);
    if s.backup.Some? then
      var (t, ok) := Removed(s, f(op));
      var removed := Put(d, n, t);
      if !ok || f(op + 1).Fails? then Ran(removed, op + 2, [removed], true)
      else
        var restored := Put(removed, n, Spot(s.backup, s.package, None));
        Ran(restored, op + 2, [removed, restored], false)
    else if s.package.None? then
      var (t, ok) := Removed(s, f(op));
      var removed := Put(d, n, t);
      Ran(removed, op + 2, [removed], !ok)
    else Ran(d, op + 2, [], false)
  }

  /** Last name first; a failure is remembered and the rest goes on. */
  function RollbackFrom(d: Disk, names: seq<string>, f: Faults, op: nat): Ran
    decreases |names|
  {
    if names == [] then Ran(d, op, [], false)
    else
      var last := |names| - 1;
      var one := RollbackOne(d, names[last], f, op);
      var r := RollbackFrom(one.disk, names[..last], f, one.op);
      Ran(r.disk, r.op, one.trace + r.trace, one.failed || r.failed)
  }

  predicate Distinct(names: seq<string>) {
    forall i, j :: 0 <= i < j < |names| ==> names[i] != names[j]
  }

  // ----- one name during apply

  /** Before its turn a name is as it was; then backed up; then replaced. */
  predicate Waiting(was: Spot, s: Spot) {
    s == was
  }

  predicate BackedUp(was: Spot, s: Spot) {
    s == Spot(None, was.package, was.install)
  }

  predicate Replaced(was: Spot, s: Spot) {
    s == Spot(was.package, None, was.install)
  }

  predicate Applying(was: Spot, s: Spot) {
    Waiting(was, s) || BackedUp(was, s) || Replaced(was, s)
  }

  /** The staged package holds every managed name, and the backup starts empty. */
  predicate Ready(d: Disk, names: seq<string>) {
    Distinct(names) && d.backup == map[] && forall i :: 0 <= i < |names| ==> names[i] in d.package
  }

  /** While names before `done` are replaced and those after it wait, only the name at `done` is in between. */
  ghost predicate Progress(d0: Disk, d: Disk, names: seq<string>, done: nat) {
    && done <= |names|
    && (forall i :: 0 <= i < done ==> Replaced(At(d0, names[i]), At(d, names[i])))
    && (done < |names| ==> Applying(At(d0, names[done]), At(d, names[done])))
    && (forall i :: done < i < |names| ==> Waiting(At(d0, names[i]), At(d, names[i])))
    && (forall n :: n !in names ==> At(d, n) == At(d0, n))
  }

  ghost predicate SomeProgress(d0: Disk, d: Disk, names: seq<string>) {
    exists done :: 0 <= done <= |names| && Progress(d0, d, names, done)
  }

  lemma ApplyOneOk(d0: Disk, d: Disk, names: seq<string>, done: nat, f: Faults, op: nat)
    requires Ready(d0, names) && done < |names| && Progress(d0, d, names, done)
    requires Waiting(At(d0, names[done]), At(d, names[done]))
    ensures var r := ApplyOne(d, names[done], f, op);
            && Progress(d0, r.disk, names, if r.failed then done else done + 1)
            && (!r.failed && done + 1 < |names| ==> Waiting(At(d0, names[done + 1]), At(r.disk, names[done + 1])))
            && (forall i :: 0 <= i < |r.trace| ==> SomeProgress(d0, r.trace[i], names))
            && (!r.failed ==> |r.trace| > 0 && r.trace[|r.trace| - 1] == r.disk)
  {
    hide At, Get, Put, Set;
    var n := names[done];
    var was := At(d0, n);
    assert was.backup.None? && was.package.Some? by { ReadySpot(d0, names, done); }
    var backed := if was.install.Some? then Put(d, n, Spot(None, was.package, was.install)) else d;
    assert Progress(d0, backed, names, done);
    if was.package.Some? {
      var placed := Put(backed, n, Spot(was.package, None, At(backed, n).backup));
      assert Progress(d0, placed, names, done + 1);
    }
  }

  lemma ReadySpot(d: Disk, names: seq<string>, i: nat)
    requires Ready(d, names) && i < |names|
    ensures At(d, names[i]).backup.None? && At(d, names[i]).package.Some?
  {
  }

  /** Wherever apply stops, and after every operation on the way, the disk is at some point of the sequence. */
  lemma {:induction false} ApplyProgress(d0: Disk, d: Disk, names: seq<string>, done: nat, f: Faults, op: nat)
    returns (end: nat)
    requires Ready(d0, names) && done <= |names| && Progress(d0, d, names, done)
    requires done < |names| ==> Waiting(At(d0, names[done]), At(d, names[done]))
    ensures var r := ApplyFrom(d, names[done..], f, op);
            && done <= end <= |names| && Progress(d0, r.disk, names, end) && (!r.failed ==> end == |names|)
            && forall i :: 0 <= i < |r.trace| ==> SomeProgress(d0, r.trace[i], names)
    decreases |names| - done
  {
    end := done;
    if done < |names| {
      hide Progress, Waiting, ApplyOne, Ready, At;
      var rest := names[done..];
      assert rest[0] == names[done] && rest[1..] == names[done + 1..];
      ApplyOneOk(d0, d, names, done, f, op);
      var one := ApplyOne(d, names[done], f, op);
      if !one.failed {
        end := ApplyProgress(d0, one.disk, names, done + 1, f, one.op);
      }
    }
  }

  lemma Start(d0: Disk, names: seq<string>)
    requires Ready(d0, names)
    ensures Progress(d0, d0, names, 0) && names[0..] == names
  {
  }

  // ----- what holds at every step

  /** The entry is in its place or in the backup. */
  predicate Has(d: Disk, n: string, e: Entry) {
    Get(d.install, n) == Some(e) || Get(d.backup, n) == Some(e)
  }

  /** An original entry is where it was, or in the backup; and nothing else is touched. */
  ghost predicate Kept(d0: Disk, d: Disk, names: seq<string>) {
    && (forall n :: n in d0.install ==> Has(d, n, d0.install[n]))
    && (forall n :: n !in names ==> At(d, n) == At(d0, n))
  }

  /** An executable from the package stands beside entries from the package only. */
  ghost predicate NotMixed(d0: Disk, d: Disk, names: seq<string>) {
    names != [] && Replaced(At(d0, names[|names| - 1]), At(d, names[|names| - 1])) ==>
      forall i :: 0 <= i < |names| ==> Replaced(At(d0, names[i]), At(d, names[i]))
  }

  lemma ProgressKeeps(d0: Disk, d: Disk, names: seq<string>)
    requires Ready(d0, names) && SomeProgress(d0, d, names)
    ensures Kept(d0, d, names) && NotMixed(d0, d, names)
  {
    hide Set, Put;
    var done :| 0 <= done <= |names| && Progress(d0, d, names, done);
    forall n | n in d0.install
      ensures Has(d, n, d0.install[n])
    {
      assert At(d0, n).install == Some(d0.install[n]);
      if n in names {
        var i :| 0 <= i < |names| && names[i] == n;
        assert Applying(At(d0, names[i]), At(d, names[i]));
      }
    }
    if names != [] && done < |names| && Replaced(At(d0, names[|names| - 1]), At(d, names[|names| - 1])) {
      var last := |names| - 1;
      ReadySpot(d0, names, last);
      assert done == last;
    }
  }

  /**
   At every point of every apply, failing or not, each original entry is at its place or in the backup, unmanaged
   entries are untouched, and a new executable means that every managed entry is already new.
   */
  lemma ApplyKeeps(d0: Disk, names: seq<string>, f: Faults, i: nat)
    requires Ready(d0, names) && i < |ApplyFrom(d0, names, f, 0).trace|
    ensures var d := ApplyFrom(d0, names, f, 0).trace[i]; Kept(d0, d, names) && NotMixed(d0, d, names)
  {
    hide Progress, ApplyFrom, Kept, NotMixed;
    Start(d0, names);
    var end := ApplyProgress(d0, d0, names, 0, f, 0) by { WaitsAtStart(d0, names); }
    ProgressKeeps(d0, ApplyFrom(d0, names, f, 0).trace[i], names);
  }

  lemma WaitsAtStart(d0: Disk, names: seq<string>)
    ensures names != [] ==> Waiting(At(d0, names[0]), At(d0, names[0]))
  {
  }

  // ----- rolling back

  /** Before its turn in a rollback, a managed name is as apply left it; afterwards, if all went well, as it was. */
  predicate Restored(was: Spot, s: Spot) {
    s.install == was.install
  }

  ghost predicate RollingBack(d0: Disk, d: Disk, names: seq<string>, left: nat) {
    && left <= |names|
    && (forall i :: 0 <= i < left ==> Applying(At(d0, names[i]), At(d, names[i])))
    && (forall n :: n !in names ==> At(d, n) == At(d0, n))
    && (forall n :: n in d0.install ==> Has(d, n, d0.install[n]))
  }

  ghost predicate RestoredFrom(d0: Disk, d: Disk, names: seq<string>, left: nat)
    requires left <= |names|
  {
    forall i :: left <= i < |names| ==> Restored(At(d0, names[i]), At(d, names[i])) && At(d, names[i]).backup.None?
  }

  lemma KeptElsewhere(d0: Disk, d: Disk, e: Disk, n: string)
    requires forall m :: m in d0.install ==> Has(d, m, d0.install[m])
    requires forall m :: m != n ==> At(e, m) == At(d, m)
    requires n in d0.install ==> Has(e, n, d0.install[n])
    ensures forall m :: m in d0.install ==> Has(e, m, d0.install[m])
  {
    hide Get;
    forall m | m in d0.install
      ensures Has(e, m, d0.install[m])
    {
      if m != n {
        assert At(e, m) == At(d, m);
      }
    }
  }

  lemma SpotRollsBack(d0: Disk, d: Disk, n: string, f: Faults, op: nat)
    requires Applying(At(d0, n), At(d, n)) && At(d0, n).backup.None? && At(d0, n).package.Some?
    ensures var r := RollbackOne(d, n, f, op);
            && (forall k :: k != n ==> At(r.disk, k) == At(d, k))
            && (!r.failed ==> At(r.disk, n).install == At(d0, n).install && At(r.disk, n).backup.None?)
            && (var e := r.disk; n in d0.install ==> Has(e, n, d0.install[n]))
            && (forall i :: 0 <= i < |r.trace| ==>
                  var e := r.trace[i];
                  && (forall k :: k != n ==> At(e, k) == At(d, k))
                  && (n in d0.install ==> Has(e, n, d0.install[n])))
  {
    hide Put, Set;
    var r := RollbackOne(d, n, f, op);
    forall i | 0 <= i < |r.trace|
      ensures forall k :: k != n ==> At(r.trace[i], k) == At(d, k)
      ensures At(d0, n).install.Some? ==> Has(r.trace[i], n, At(d0, n).install.value)
    {
    }
  }

  lemma RollbackOneOk(d0: Disk, d: Disk, names: seq<string>, left: nat, f: Faults, op: nat)
    requires Ready(d0, names) && 0 < left && RollingBack(d0, d, names, left)
    ensures var r := RollbackOne(d, names[left - 1], f, op);
            && RollingBack(d0, r.disk, names, left - 1)
            && (!r.failed && RestoredFrom(d0, d, names, left) ==> RestoredFrom(d0, r.disk, names, left - 1))
            && (forall i :: 0 <= i < |r.trace| ==> RollingBack(d0, r.trace[i], names, left - 1))
  {
    hide At, Get, RollbackOne;
    var n := names[left - 1];
    ReadySpot(d0, names, left - 1);
    SpotRollsBack(d0, d, n, f, op);
    var r := RollbackOne(d, n, f, op);
    KeptElsewhere(d0, d, r.disk, n);
    forall i | 0 <= i < |r.trace| ensures RollingBack(d0, r.trace[i], names, left - 1)
    {
      KeptElsewhere(d0, d, r.trace[i], n);
    }
  }

  lemma {:induction false} RollbackOk(d0: Disk, d: Disk, names: seq<string>, left: nat, f: Faults, op: nat)
    requires Ready(d0, names) && left <= |names| && RollingBack(d0, d, names, left)
    ensures var r := RollbackFrom(d, names[..left], f, op);
            && RollingBack(d0, r.disk, names, 0)
            && (!r.failed && RestoredFrom(d0, d, names, left) ==> RestoredFrom(d0, r.disk, names, 0))
            && (forall i :: 0 <= i < |r.trace| ==> RollingBack(d0, r.trace[i], names, 0))
    decreases left
  {
    if left > 0 {
      hide RollbackOne, RollingBack, Ready, RestoredFrom, At;
      RollbackOneOk(d0, d, names, left, f, op);
      var one := RollbackOne(d, names[left - 1], f, op);
      assert names[..left][..left - 1] == names[..left - 1];
      RollbackOk(d0, one.disk, names, left - 1, f, one.op);
      forall i | 0 <= i < |one.trace| ensures RollingBack(d0, one.trace[i], names, 0)
      {
        FewerLeft(d0, one.trace[i], names, left - 1);
      }
    }
  }

  lemma FewerLeft(d0: Disk, d: Disk, names: seq<string>, left: nat)
    requires RollingBack(d0, d, names, left)
    ensures RollingBack(d0, d, names, 0)
  {
  }

  lemma ProgressRolls(d0: Disk, d: Disk, names: seq<string>, done: nat)
    requires Ready(d0, names) && Progress(d0, d, names, done)
    ensures RollingBack(d0, d, names, |names|) && RestoredFrom(d0, d, names, |names|)
  {
    assert SomeProgress(d0, d, names);
    ProgressKeeps(d0, d, names);
    hide At, Get;
  }

  /**
   For every list of names and every point at which apply stops, one rollback that reports no failure leaves the
   installation exactly as it was, entries that did not exist included; and at each of its steps, failing or not,
   every original entry is at its place or in the backup and unmanaged entries are untouched.
   */
  lemma RollbackRestores(d0: Disk, names: seq<string>, f: Faults, g: Faults, op: nat)
    requires Ready(d0, names)
    ensures var r := RollbackFrom(ApplyFrom(d0, names, f, 0).disk, names, g, op);
            && (!r.failed ==> r.disk.install == d0.install)
            && (forall i :: 0 <= i < |r.trace| ==> Kept(d0, r.trace[i], names))
            && Kept(d0, r.disk, names)
  {
    hide Progress, ApplyFrom, RollbackFrom, RollingBack, RestoredFrom;
    Start(d0, names);
    var end := ApplyProgress(d0, d0, names, 0, f, 0) by { WaitsAtStart(d0, names); }
    var d := ApplyFrom(d0, names, f, 0).disk;
    ProgressRolls(d0, d, names, end);
    assert names[..|names|] == names;
    RollbackOk(d0, d, names, |names|, g, op);
    var r := RollbackFrom(d, names, g, op);
    KeptBy(d0, r.disk, names);
    forall i | 0 <= i < |r.trace| ensures Kept(d0, r.trace[i], names)
    {
      KeptBy(d0, r.trace[i], names);
    }
    if !r.failed {
      InstallBack(d0, r.disk, names);
    }
  }

  lemma KeptBy(d0: Disk, d: Disk, names: seq<string>)
    requires RollingBack(d0, d, names, 0)
    ensures Kept(d0, d, names)
  {
  }

  lemma InstallBack(d0: Disk, d: Disk, names: seq<string>)
    requires RollingBack(d0, d, names, 0) && RestoredFrom(d0, d, names, 0)
    ensures d.install == d0.install
  {
    hide Get;
    forall n ensures Get(d.install, n) == Get(d0.install, n)
    {
      if n in names {
        var i :| 0 <= i < |names| && names[i] == n;
        assert Restored(At(d0, names[i]), At(d, names[i]));
      } else {
        assert At(d, n) == At(d0, n);
      }
    }
    SameEverywhere(d.install, d0.install);
  }

  /** With no failure at all, apply installs the whole package and keeps every replaced entry. */
  lemma ApplyInstalls(d0: Disk, names: seq<string>, f: Faults)
    requires Ready(d0, names) && !ApplyFrom(d0, names, f, 0).failed
    ensures var d := ApplyFrom(d0, names, f, 0).disk;
            && (forall n :: n in names ==> At(d, n) == Spot(Get(d0.package, n), None, Get(d0.install, n)))
            && (forall n :: n !in names ==> At(d, n) == At(d0, n))
  {
    hide ApplyFrom;
    Start(d0, names);
    var end := ApplyProgress(d0, d0, names, 0, f, 0) by { WaitsAtStart(d0, names); }
    var d := ApplyFrom(d0, names, f, 0).disk;
    forall n | n in names ensures At(d, n) == Spot(Get(d0.package, n), None, Get(d0.install, n))
    {
      var i :| 0 <= i < |names| && names[i] == n;
      assert Replaced(At(d0, names[i]), At(d, names[i]));
    }
  }

  // ----- once more

  /** A rollback in which every operation works. */
  const NO_FAULTS: Faults := _ => Works

  lemma {:induction false} RollbackFrame(d: Disk, names: seq<string>, f: Faults, op: nat, n: string)
    requires n !in names
    ensures var r := RollbackFrom(d, names, f, op);
            At(r.disk, n) == At(d, n) && forall i :: 0 <= i < |r.trace| ==> At(r.trace[i], n) == At(d, n)
    decreases |names|
  {
    hide At;
    if names != [] {
      var last := |names| - 1;
      var one := RollbackOne(d, names[last], f, op);
      RollbackFrame(one.disk, names[..last], f, one.op, n);
    }
  }

  lemma EmptyRollbackOne(d: Disk, n: string, op: nat)
    requires At(d, n).backup.None?
    ensures var r := RollbackOne(d, n, NO_FAULTS, op);
            && !r.failed && (forall k :: k != n ==> At(r.disk, k) == At(d, k))
            && At(r.disk, n).install == if At(d, n).package.None? then None else At(d, n).install
  {
    hide Put, Set;
  }

  /** With nothing in the backup, rolling back removes every name that is gone from the package, and nothing else. */
  lemma {:induction false} EmptyRollback(d: Disk, names: seq<string>, op: nat)
    requires Distinct(names) && forall i :: 0 <= i < |names| ==> At(d, names[i]).backup.None?
    ensures var r := RollbackFrom(d, names, NO_FAULTS, op);
            && !r.failed
            && forall i :: 0 <= i < |names| ==>
                 At(r.disk, names[i]).install == if At(d, names[i]).package.None? then None else At(d, names[i]).install
    decreases |names|
  {
    if names != [] {
      hide At, Get, RollbackOne;
      var last := |names| - 1;
      var n := names[last];
      var one := RollbackOne(d, n, NO_FAULTS, op);
      EmptyRollbackOne(d, n, op);
      EmptyRollback(one.disk, names[..last], one.op);
      RollbackFrame(one.disk, names[..last], NO_FAULTS, one.op, n);
      var r := RollbackFrom(d, names, NO_FAULTS, op);
      forall i | 0 <= i < |names|
        ensures At(r.disk, names[i]).install == if At(d, names[i]).package.None? then None else At(d, names[i]).install
      {
        if i < last {
          assert names[..last][i] == names[i];
        }
      }
    }
  }

  /**
   Rolling back again after a rollback that reported no failure keeps the restored installation exactly when no
   managed entry that existed before had been replaced.
   */
  lemma SecondRollbackIff(d0: Disk, names: seq<string>, f: Faults, g: Faults)
    requires Ready(d0, names)
    ensures var r := RollbackFrom(ApplyFrom(d0, names, f, 0).disk, names, g, 0);
            !r.failed ==>
              (RollbackFrom(r.disk, names, NO_FAULTS, 0).disk.install == d0.install
               <==> forall i :: 0 <= i < |names| ==> names[i] in r.disk.package || names[i] !in d0.install)
  {
    hide Progress, ApplyFrom, RollbackFrom, RollingBack, RestoredFrom;
    Start(d0, names);
    var end := ApplyProgress(d0, d0, names, 0, f, 0) by { WaitsAtStart(d0, names); }
    var d := ApplyFrom(d0, names, f, 0).disk;
    ProgressRolls(d0, d, names, end);
    assert names[..|names|] == names;
    RollbackOk(d0, d, names, |names|, g, 0);
    var r := RollbackFrom(d, names, g, 0);
    if !r.failed {
      InstallBack(d0, r.disk, names);
      AgainIff(d0, r.disk, names);
    }
  }

  lemma AgainIff(d0: Disk, d: Disk, names: seq<string>)
    requires Distinct(names) && d.install == d0.install && RestoredFrom(d0, d, names, 0)
    ensures RollbackFrom(d, names, NO_FAULTS, 0).disk.install == d0.install
            <==> forall i :: 0 <= i < |names| ==> names[i] in d.package || names[i] !in d0.install
  {
    hide RollbackFrom;
    EmptyRollback(d, names, 0);
    var e := RollbackFrom(d, names, NO_FAULTS, 0).disk;
    if forall i :: 0 <= i < |names| ==> names[i] in d.package || names[i] !in d0.install {
      forall n ensures Get(e.install, n) == Get(d0.install, n)
      {
        if n in names {
          var i :| 0 <= i < |names| && names[i] == n;
          assert At(e, n).install == At(d, n).install;
        } else {
          RollbackFrame(d, names, NO_FAULTS, 0, n);
          assert At(e, n) == At(d, n);
        }
      }
      SameEverywhere(e.install, d0.install);
    } else {
      var i :| 0 <= i < |names| && !(names[i] in d.package || names[i] !in d0.install);
      assert At(e, names[i]).install == None;
    }
  }

  /** One entry that was updated and rolled back is deleted by rolling back again. */
  lemma SecondRollbackDeletes(old_: Entry, new_: Entry)
    ensures var d0 := Disk(map["a" := old_], map["a" := new_], map[]);
            var r := RollbackFrom(ApplyFrom(d0, ["a"], NO_FAULTS, 0).disk, ["a"], NO_FAULTS, 0);
            && Ready(d0, ["a"]) && !r.failed && r.disk.install == d0.install
            && "a" !in RollbackFrom(r.disk, ["a"], NO_FAULTS, 0).disk.install
  {
    var d0 := Disk(map["a" := old_], map["a" := new_], map[]);
    var names := ["a"];
    assert names[1..] == [] && names[..0] == [] && "a" == names[0];
    assert Ready(d0, names);
    RollbackRestores(d0, names, NO_FAULTS, NO_FAULTS, 0);
    var one := ApplyOne(d0, "a", NO_FAULTS, 0);
    var d := ApplyFrom(d0, names, NO_FAULTS, 0).disk;
    assert d == one.disk;
    var back := RollbackOne(d, "a", NO_FAULTS, 0);
    var r := RollbackFrom(d, names, NO_FAULTS, 0);
    assert r.disk == back.disk;
    var again := RollbackOne(r.disk, "a", NO_FAULTS, 0);
    assert RollbackFrom(r.disk, names, NO_FAULTS, 0).disk == again.disk;
    assert At(again.disk, "a").install.None?;
  }

  // ----- the executable while rolling back

  lemma LastNotReplaced(d0: Disk, d: Disk, n: string, f: Faults, op: nat)
    requires Applying(At(d0, n), At(d, n)) && At(d0, n).backup.None? && At(d0, n).package.Some?
    requires !RollbackOne(d, n, f, op).failed
    ensures var r := RollbackOne(d, n, f, op);
            && !Replaced(At(d0, n), At(r.disk, n))
            && forall i :: 0 <= i < |r.trace| ==> !Replaced(At(d0, n), At(r.trace[i], n))
  {
    hide Put, Set;
  }

  /** Unless undoing it fails, the last name is undone first, and is never new again while the others are undone. */
  lemma RollbackNotMixed(d0: Disk, names: seq<string>, f: Faults, g: Faults)
    requires Ready(d0, names) && names != []
    ensures var d := ApplyFrom(d0, names, f, 0).disk; var n := names[|names| - 1];
            var r := RollbackFrom(d, names, g, 0);
            !RollbackOne(d, n, g, 0).failed ==>
              !Replaced(At(d0, n), At(r.disk, n))
              && forall i :: 0 <= i < |r.trace| ==> !Replaced(At(d0, n), At(r.trace[i], n))
  {
    var d, last := ApplyFrom(d0, names, f, 0).disk, |names| - 1;
    hide ApplyFrom, RollbackOne, At, Replaced, Progress;
    Start(d0, names);
    var end := ApplyProgress(d0, d0, names, 0, f, 0) by { WaitsAtStart(d0, names); }
    ProgressRolls(d0, d, names, end);
    var n := names[last];
    ReadySpot(d0, names, last);
    var one := RollbackOne(d, n, g, 0);
    if !one.failed {
      LastNotReplaced(d0, d, n, g, 0);
      RollbackFrame(one.disk, names[..last], g, one.op, n);
    }
  }
}
