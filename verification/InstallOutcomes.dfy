/** What an apply and a rollback come to, operation by operation: which failures stop them, and what they leave. */
module InstallOutcomes {
  import opened Bytes
  import opened InstallModel

  // ----- apply

  /** One of the operations on entry `i` fails; only an entry that was installed is backed up. */
  predicate StepFails(d0: Disk, names: seq<string>, f: Faults, i: nat)
    requires i < |names|
  {
    || (names[i] in d0.install && f(3 * i).Fails?)
    || f(3 * i + 1).Fails? || f(3 * i + 2).Fails?
  }

  /** An entry whose step worked: from the package, with what was there before in the backup. */
  function Installed(d0: Disk, n: string): Spot {
    Spot(Get(d0.package, n), None, Get(d0.install, n))
  }

  /** An entry whose step failed: as it was if its backup failed, else in the backup. */
  function Stopped(d0: Disk, names: seq<string>, f: Faults, i: nat): Spot
    requires i < |names|
  {
    var was := At(d0, names[i]);
    if was.install.Some? && f(3 * i).Fails? then was else Spot(None, was.package, was.install)
  }

  lemma StepIs(d0: Disk, d: Disk, names: seq<string>, f: Faults, i: nat)
    requires Ready(d0, names) && i < |names| && At(d, names[i]) == At(d0, names[i])
    ensures var r := ApplyOne(d, names[i], f, 3 * i);
            && r.op == 3 * (i + 1) && (r.failed <==> StepFails(d0, names, f, i))
            && At(r.disk, names[i]) == (if r.failed then Stopped(d0, names, f, i) else Installed(d0, names[i]))
            && forall n :: n != names[i] ==> At(r.disk, n) == At(d, n)
  {
    hide Put, Set;
    ReadySpot(d0, names, i);
  }

  /** Entries before `k` are new, entry `k` is where its step stopped, and all others are as they were. */
  ghost predicate StoppedAt(d0: Disk, d: Disk, names: seq<string>, f: Faults, k: nat) {
    && k <= |names|
    && (forall i :: 0 <= i < k ==>
          !StepFails(d0, names, f, i) && At(d, names[i]) == Installed(d0, names[i]))
    && (k < |names| ==> StepFails(d0, names, f, k) && At(d, names[k]) == Stopped(d0, names, f, k))
    && (forall i :: k < i < |names| ==> At(d, names[i]) == At(d0, names[i]))
    && (forall n :: n !in names ==> At(d, n) == At(d0, n))
  }

  /** The same, with the step of entry `k` still to come. */
  ghost predicate Before(d0: Disk, d: Disk, names: seq<string>, f: Faults, k: nat) {
    && k <= |names|
    && (forall i :: 0 <= i < k ==>
          !StepFails(d0, names, f, i) && At(d, names[i]) == Installed(d0, names[i]))
    && (forall i :: k <= i < |names| ==> At(d, names[i]) == At(d0, names[i]))
    && (forall n :: n !in names ==> At(d, n) == At(d0, n))
  }

  lemma BeforeNext(d0: Disk, d: Disk, e: Disk, names: seq<string>, f: Faults, k: nat)
    requires Ready(d0, names) && k < |names| && Before(d0, d, names, f, k)
    requires forall n :: n != names[k] ==> At(e, n) == At(d, n)
    requires At(e, names[k]) == if StepFails(d0, names, f, k) then Stopped(d0, names, f, k)
                                else Installed(d0, names[k])
    ensures if StepFails(d0, names, f, k) then StoppedAt(d0, e, names, f, k) else Before(d0, e, names, f, k + 1)
  {
    hide At, Get, StepFails, Stopped, Installed;
  }

  lemma {:induction false} ApplyRest(d0: Disk, d: Disk, names: seq<string>, f: Faults, k: nat) returns (end: nat)
    requires Ready(d0, names) && Before(d0, d, names, f, k)
    ensures var r := ApplyFrom(d, names[k..], f, 3 * k);
            StoppedAt(d0, r.disk, names, f, end) && (r.failed <==> end < |names|)
    decreases |names| - k
  {
    end := k;
    if k < |names| {
      hide Before, StoppedAt, ApplyOne, Ready, At, StepFails, Stopped, Installed;
      SameSpot(d0, d, names, f, k);
      StepIs(d0, d, names, f, k);
      var one := ApplyOne(d, names[k], f, 3 * k);
      BeforeNext(d0, d, one.disk, names, f, k);
      assert names[k..][0] == names[k] && names[k..][1..] == names[k + 1..];
      if !one.failed {
        end := ApplyRest(d0, one.disk, names, f, k + 1);
      }
    }
  }

  lemma SameSpot(d0: Disk, d: Disk, names: seq<string>, f: Faults, k: nat)
    requires Before(d0, d, names, f, k) && k < |names|
    ensures At(d, names[k]) == At(d0, names[k])
  {
  }

  /**
   An apply fails exactly if one of the operations it needs does. It stops at the first such entry, and leaves every
   entry before it new, that entry in its place or in the backup, and every later one untouched.
   */
  lemma ApplyOutcome(d0: Disk, names: seq<string>, f: Faults) returns (k: nat)
    requires Ready(d0, names)
    ensures var r := ApplyFrom(d0, names, f, 0);
            && StoppedAt(d0, r.disk, names, f, k) && (r.failed <==> k < |names|)
            && (r.failed <==> exists i :: 0 <= i < |names| && StepFails(d0, names, f, i))
  {
    hide ApplyFrom, At, StepFails, Stopped;
    assert names[0..] == names;
    k := ApplyRest(d0, d0, names, f, 0);
  }

  // ----- rollback

  /** What undoing one entry leaves when its two operations are these. */
  function Undone(s: Spot, removal: Fault, move: Fault): Spot {
    if s.backup.Some? then
      if s.install.Some? && removal.Fails? then Spot(removal.left, s.package, s.backup)
      else if move.Fails? then Spot(None, s.package, s.backup)
      else Spot(s.backup, s.package, None)
    else if s.package.None? && s.install.Some? then
      Spot(if removal.Fails? then removal.left else None, None, None)
    else s
  }

  /** An operation that it needs fails: there is something to remove, or something to move back. */
  predicate UndoFails(s: Spot, removal: Fault, move: Fault) {
    if s.backup.Some? then (s.install.Some? && removal.Fails?) || move.Fails?
    else s.package.None? && s.install.Some? && removal.Fails?
  }

  /** The number of the operation that undoes entry `i`: the last entry comes first. */
  function Turn(names: seq<string>, op: nat, i: nat): nat
    requires i < |names|
  {
    op + 2 * (|names| - 1 - i)
  }

  predicate EntryFails(d: Disk, names: seq<string>, g: Faults, op: nat, i: nat)
    requires i < |names|
  {
    UndoFails(At(d, names[i]), g(Turn(names, op, i)), g(Turn(names, op, i) + 1))
  }

  function EntryUndone(d: Disk, names: seq<string>, g: Faults, op: nat, i: nat): Spot
    requires i < |names|
  {
    Undone(At(d, names[i]), g(Turn(names, op, i)), g(Turn(names, op, i) + 1))
  }

  /** Undoing the last entry first changes nothing about what the others come to. */
  lemma OthersLater(d: Disk, e: Disk, names: seq<string>, g: Faults, op: nat)
    requires Distinct(names) && names != [] && forall n :: n != names[|names| - 1] ==> At(e, n) == At(d, n)
    ensures forall i :: 0 <= i < |names| - 1 ==>
              && EntryFails(e, names[..|names| - 1], g, op + 2, i) == EntryFails(d, names, g, op, i)
              && EntryUndone(e, names[..|names| - 1], g, op + 2, i) == EntryUndone(d, names, g, op, i)
  {
    hide At, Get, Undone, UndoFails;
    forall i | 0 <= i < |names| - 1
      ensures EntryFails(e, names[..|names| - 1], g, op + 2, i) == EntryFails(d, names, g, op, i)
      ensures EntryUndone(e, names[..|names| - 1], g, op + 2, i) == EntryUndone(d, names, g, op, i)
    {
      assert names[..|names| - 1][i] == names[i] && At(e, names[i]) == At(d, names[i]);
      assert Turn(names, op, i) == Turn(names[..|names| - 1], op + 2, i);
    }
  }

  lemma LastTurn(d: Disk, names: seq<string>, g: Faults, op: nat)
    requires names != []
    ensures var last := |names| - 1; var one := RollbackOne(d, names[last], g, op);
            && one.op == op + 2 && At(one.disk, names[last]) == EntryUndone(d, names, g, op, last)
            && (one.failed <==> EntryFails(d, names, g, op, last))
            && forall m :: m != names[last] ==> At(one.disk, m) == At(d, m)
  {
    hide Undone, UndoFails, RollbackOne;
    UndoneIs(d, names[|names| - 1], g, op);
    assert Turn(names, op, |names| - 1) == op;
  }

  lemma UndoneIs(d: Disk, n: string, g: Faults, op: nat)
    ensures var r := RollbackOne(d, n, g, op);
            && r.op == op + 2 && At(r.disk, n) == Undone(At(d, n), g(op), g(op + 1))
            && (r.failed <==> UndoFails(At(d, n), g(op), g(op + 1)))
            && forall m :: m != n ==> At(r.disk, m) == At(d, m)
  {
    hide Put, Set;
  }

  lemma {:induction false} EveryUndone(d: Disk, names: seq<string>, g: Faults, op: nat)
    requires Distinct(names)
    ensures var r := RollbackFrom(d, names, g, op);
            forall i :: 0 <= i < |names| ==> At(r.disk, names[i]) == EntryUndone(d, names, g, op, i)
    decreases |names|
  {
    if names != [] {
      hide At, Get, RollbackOne, EntryFails, EntryUndone;
      var last := |names| - 1;
      var n, rest := names[last], names[..last];
      LastTurn(d, names, g, op);
      var one := RollbackOne(d, n, g, op);
      OthersLater(d, one.disk, names, g, op);
      EveryUndone(one.disk, rest, g, op + 2);
      RollbackFrame(one.disk, rest, g, op + 2, n);
      forall i | 0 <= i < |names|
        ensures At(RollbackFrom(d, names, g, op).disk, names[i]) == EntryUndone(d, names, g, op, i)
      {
        if i < last {
          assert rest[i] == names[i];
        }
      }
    }
  }

  ghost predicate AnyFails(d: Disk, names: seq<string>, g: Faults, op: nat) {
    exists i :: 0 <= i < |names| && EntryFails(d, names, g, op, i)
  }

  lemma {:induction false} AnyFailure(d: Disk, names: seq<string>, g: Faults, op: nat)
    requires Distinct(names)
    ensures RollbackFrom(d, names, g, op).failed <==> AnyFails(d, names, g, op)
    decreases |names|
  {
    if names != [] {
      hide At, Get, RollbackOne, EntryFails, EntryUndone;
      var last := |names| - 1;
      LastTurn(d, names, g, op);
      var one, rest := RollbackOne(d, names[last], g, op), names[..last];
      OthersLater(d, one.disk, names, g, op);
      AnyFailure(one.disk, rest, g, op + 2);
      if AnyFails(one.disk, rest, g, op + 2) {
        var i :| 0 <= i < |rest| && EntryFails(one.disk, rest, g, op + 2, i);
        assert EntryFails(d, names, g, op, i);
      }
      if i :| 0 <= i < |names| && EntryFails(d, names, g, op, i) {
        assert i < last ==> EntryFails(one.disk, rest, g, op + 2, i);
      }
    }
  }

  /**
   A rollback undoes every entry, the last one first, whatever became of the others: each comes to what its own two
   operations make of it, and the rollback fails exactly if one of the operations it needs did.
   */
  lemma RollbackOutcome(d: Disk, names: seq<string>, g: Faults, op: nat)
    requires Distinct(names)
    ensures var r := RollbackFrom(d, names, g, op);
            && (forall i :: 0 <= i < |names| ==> At(r.disk, names[i]) == EntryUndone(d, names, g, op, i))
            && (r.failed <==> exists i :: 0 <= i < |names| && EntryFails(d, names, g, op, i))
            && (forall n :: n !in names ==> At(r.disk, n) == At(d, n))
  {
    hide At, Get, RollbackFrom, EntryFails, EntryUndone;
    EveryUndone(d, names, g, op);
    AnyFailure(d, names, g, op);
    forall n | n !in names ensures At(RollbackFrom(d, names, g, op).disk, n) == At(d, n) {
      RollbackFrame(d, names, g, op, n);
    }
  }

  /** With no failure at all both succeed: the update is installed, and undoing it restores the installation. */
  lemma NoFailure(d0: Disk, names: seq<string>)
    requires Ready(d0, names)
    ensures var r := ApplyFrom(d0, names, NO_FAULTS, 0); var u := RollbackFrom(r.disk, names, NO_FAULTS, 0);
            && !r.failed && (forall n :: n in names ==> Get(r.disk.install, n) == Get(d0.package, n))
            && !u.failed && u.disk.install == d0.install
  {
    hide ApplyFrom, RollbackFrom;
    var k := ApplyOutcome(d0, names, NO_FAULTS);
    ApplyInstalls(d0, names, NO_FAULTS);
    var d := ApplyFrom(d0, names, NO_FAULTS, 0).disk;
    forall n | n in names ensures Get(d.install, n) == Get(d0.package, n) {
      assert At(d, n).install == Get(d0.package, n);
    }
    RollbackOutcome(d, names, NO_FAULTS, 0);
    RollbackRestores(d0, names, NO_FAULTS, NO_FAULTS, 0);
  }
}
