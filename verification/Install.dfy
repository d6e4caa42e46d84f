/** The update transaction as the object of the source: loops of moves and removals that change the disk in place. */
module Install {
  import opened Bytes
  import opened InstallModel
  import opened InstallOrder

  class Transaction {
    const names: seq<string>
    const faults: Faults
    var install: map<string, Entry>
    var package: map<string, Entry>
    var backup: map<string, Entry>
    var op: nat

    function Model(): Disk
      reads this
    {
      Disk(install, package, backup)
    }

    constructor (components: seq<string>, disk: Disk, faults: Faults)
      requires disk.backup == map[] && forall n :: n in components ==> n in disk.package
      ensures names == Names(components) && this.faults == faults && Model() == disk && op == 0
      ensures Ready(disk, names)
    {
      NamesInOrder(components);
      names := Names(components);
      this.faults := faults;
      install, package, backup := disk.install, disk.package, disk.backup;
      op := 0;
    }

    /** Replaces one entry; the original goes to the backup first. */
    method Replace(n: string) returns (ok: bool)
      modifies this
      ensures var r := ApplyOne(old(Model()), n, faults, old(op)); Model() == r.disk && op == r.op && ok == !r.failed
    {
      hide Put, Set;
      var start := op;
      op := op + 3;
      if n in install {
        if faults(start).Fails? {
          return false;
        }
        MovedOut(Model(), n);
        backup := backup[n := install[n]];
        install := install - {n};
      }
      if faults(start + 1).Fails? {
        return false;
      }
      if faults(start + 2).Fails? || n !in package {
        return false;
      }
      MovedIn(Model(), n);
      install := install[n := package[n]];
      package := package - {n};
      return true;
    }

    method Apply() returns (ok: bool)
      modifies this
      ensures var r := ApplyFrom(old(Model()), names, faults, old(op));
              Model() == r.disk && op == r.op && ok == !r.failed
    {
      hide ApplyOne;
      ghost var all := ApplyFrom(Model(), names, faults, op);
      assert names[0..] == names;
      for i := 0 to |names|
        invariant SameEnd(all, ApplyFrom(Model(), names[i..], faults, op))
      {
        assert names[i..][0] == names[i] && names[i..][1..] == names[i + 1..];
        ok := Replace(names[i]);
        if !ok {
          return;
        }
      }
      return true;
    }

    method Remove(n: string, fault: Fault) returns (ok: bool)
      modifies this`install
      ensures (Spot(Get(install, n), Get(package, n), Get(backup, n)), ok) == Removed(At(old(Model()), n), fault)
      ensures install == Set(old(install), n, Get(install, n))
    {
      if n !in install {
        assert Set(install, n, None) == install;
        return true;
      }
      match fault
      case Works =>
        install := install - {n};
        return true;
      case Fails(left) =>
        install := Set(install, n, left);
        return false;
    }

    /** Undoes one entry: back from the backup, or gone if it was never there before. */
    method Undo(n: string) returns (ok: bool)
      modifies this
      ensures var r := RollbackOne(old(Model()), n, faults, old(op)); Model() == r.disk && op == r.op && ok == !r.failed
    {
      hide Put;
      var start := op;
      op := op + 2;
      if n in backup {
        ok := Remove(n, faults(start));
        ghost var removed := Model();
        OnlyInstall(old(Model()), n, install);
        if !ok || faults(start + 1).Fails? {
          return false;
        }
        Moved(removed, n);
        install := install[n := backup[n]];
        backup := backup - {n};
        return true;
      } else if n !in package {
        ok := Remove(n, faults(start));
        OnlyInstall(old(Model()), n, install);
        return;
      }
      return true;
    }

    method Rollback() returns (ok: bool)
      modifies this
      ensures var r := RollbackFrom(old(Model()), names, faults, old(op));
              Model() == r.disk && op == r.op && ok == !r.failed
    {
      hide RollbackOne;
      ghost var all := RollbackFrom(Model(), names, faults, op);
      assert names[..|names|] == names;
      ok := true;
      for i := |names| downto 0
        invariant var r := RollbackFrom(Model(), names[..i], faults, op);
                  all.disk == r.disk && all.op == r.op && all.failed == (!ok || r.failed)
      {
        assert names[..i + 1][i] == names[i] && names[..i + 1][..i] == names[..i];
        var one := Undo(names[i]);
        ok := ok && one;
      }
    }
  }

  predicate SameEnd(a: Ran, b: Ran) {
    a.disk == b.disk && a.op == b.op && a.failed == b.failed
  }

  lemma OnlyInstall(d: Disk, n: string, install: map<string, Entry>)
    requires install == Set(d.install, n, Get(install, n))
    ensures Put(d, n, Spot(Get(install, n), Get(d.package, n), Get(d.backup, n))) == Disk(install, d.package, d.backup)
  {
    assert Set(d.package, n, Get(d.package, n)) == d.package;
    assert Set(d.backup, n, Get(d.backup, n)) == d.backup;
  }

  lemma MovedOut(d: Disk, n: string)
    requires n in d.install
    ensures Put(d, n, Spot(None, Get(d.package, n), Get(d.install, n)))
         == Disk(d.install - {n}, d.package, d.backup[n := d.install[n]])
  {
    assert Set(d.package, n, Get(d.package, n)) == d.package;
  }

  lemma MovedIn(d: Disk, n: string)
    requires n in d.package
    ensures Put(d, n, Spot(Get(d.package, n), None, Get(d.backup, n)))
         == Disk(d.install[n := d.package[n]], d.package - {n}, d.backup)
  {
    assert Set(d.backup, n, Get(d.backup, n)) == d.backup;
  }

  lemma Moved(d: Disk, n: string)
    requires n in d.backup
    ensures Put(d, n, Spot(Get(d.backup, n), Get(d.package, n), None))
         == Disk(d.install[n := d.backup[n]], d.package, d.backup - {n})
  {
    assert Set(d.package, n, Get(d.package, n)) == d.package;
  }

}
