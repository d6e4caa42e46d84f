/** The order in which an update replaces entries: by name, the executable after everything else. */
module InstallOrder {
  import opened Bytes
  import opened InstallModel
  import opened Lexical

  const EXE := "macvnc-app.exe"

  /** `(n == "macvnc-app.exe", n)`, compared as a pair. */
  predicate Before(a: string, b: string) {
    if (a == EXE) != (b == EXE) then b == EXE else Less(Codes(a), Codes(b))
  }

  predicate Sorted(names: seq<string>) {
    forall i, j :: 0 <= i < j < |names| ==> Before(names[i], names[j])
  }

  /** Puts one name in its place, once. */
  function Insert(names: seq<string>, n: string): seq<string> {
    if names == [] then [n]
    else if names[0] == n then names
    else if Before(n, names[0]) then [n] + names
    else [names[0]] + Insert(names[1..], n)
  }

  /** The managed names of a plan: the first component of each of its paths, in order, once each. */
  function Names(components: seq<string>): seq<string> {
    if components == [] then [] else Insert(Names(components[1..]), components[0])
  }

  lemma InsertMember(names: seq<string>, n: string, m: string)
    ensures m in Insert(names, n) <==> m == n || m in names
    decreases |names|
  {
    hide Before;
    if names != [] && names[0] != n && !Before(n, names[0]) {
      InsertMember(names[1..], n, m);
      assert names == [names[0]] + names[1..];
    }
  }

  lemma BeforeIsTransitive(a: string, b: string, c: string)
    requires Before(a, b) && Before(b, c)
    ensures Before(a, c)
  {
    hide Less;
    if (a == EXE) == (b == EXE) && (b == EXE) == (c == EXE) {
      LessTransitive(Codes(a), Codes(b), Codes(c));
    }
  }

  lemma {:induction false} InsertSorted(names: seq<string>, n: string)
    requires Sorted(names)
    ensures Sorted(Insert(names, n))
    decreases |names|
  {
    hide Before, Less;
    if names == [] || names[0] == n {
    } else if Before(n, names[0]) {
      var r := [n] + names;
      forall i, j | 0 <= i < j < |r| ensures Before(r[i], r[j])
      {
        if i == 0 && j > 1 {
          BeforeIsTransitive(n, names[0], names[j - 1]);
        }
      }
    } else {
      BeforeIsTotal(n, names[0]);
      var tail := Insert(names[1..], n);
      InsertSorted(names[1..], n);
      var r := [names[0]] + tail;
      forall i, j | 0 <= i < j < |r| ensures Before(r[i], r[j])
      {
        if i == 0 {
          InsertMember(names[1..], n, tail[j - 1]);
          if tail[j - 1] != n {
            assert tail[j - 1] in names[1..];
            var k :| 0 <= k < |names[1..]| && names[1..][k] == tail[j - 1];
            assert names[k + 1] == tail[j - 1];
          }
        }
      }
    }
  }

  lemma BeforeIsTotal(a: string, b: string)
    ensures !(Before(a, b) && Before(b, a)) && (a == b ==> !Before(a, b)) && (a != b ==> Before(a, b) || Before(b, a))
  {
    hide Less;
    CodesInjective(a, b);
    LessTotal(Codes(a), Codes(b));
  }

  /** In the order of names `a` comes first: character by character, a beginning before what it begins. */
  predicate Earlier(a: string, b: string) {
    exists k :: 0 <= k <= |a| && k < |b| && a[..k] == b[..k] && (k == |a| || a[k] < b[k])
  }

  lemma EarlierIff(a: string, b: string)
    ensures Earlier(a, b) <==> Less(Codes(a), Codes(b))
  {
    hide Less;
    LessIff(Codes(a), Codes(b));
    forall k | 0 <= k <= |a| && k < |b| ensures a[..k] == b[..k] <==> Codes(a)[..k] == Codes(b)[..k] {
      CodesInjective(a[..k], b[..k]);
      assert Codes(a[..k]) == Codes(a)[..k] && Codes(b[..k]) == Codes(b)[..k];
    }
    if Less(Codes(a), Codes(b)) {
      var k :| 0 <= k <= |a| && DiffersAt(Codes(a), Codes(b), k);
      assert a[..k] == b[..k];
    }
    if Earlier(a, b) {
      var k :| 0 <= k <= |a| && k < |b| && a[..k] == b[..k] && (k == |a| || a[k] < b[k]);
      assert DiffersAt(Codes(a), Codes(b), k);
    }
  }

  /** Each component appears exactly once, nothing else does, in the order of names with the executable last. */
  lemma {:induction false} NamesInOrder(components: seq<string>)
    ensures var names := Names(components);
            && Sorted(names) && Distinct(names) && (forall n :: n in names <==> n in components)
            && ("macvnc-app.exe" in components ==> names != [] && names[|names| - 1] == "macvnc-app.exe")
            && forall i, j :: 0 <= i < j < |names| ==>
                 names[i] != "macvnc-app.exe" && (names[j] == "macvnc-app.exe" || Earlier(names[i], names[j]))
  {
    SortedMembers(components);
    var names := Names(components);
    hide Names, Less, Earlier;
    forall i, j | 0 <= i < j < |names|
      ensures names[i] != names[j] && names[i] != EXE && (names[j] == EXE || Earlier(names[i], names[j]))
    {
      assert Before(names[i], names[j]);
      BeforeIsTotal(names[i], names[j]);
      EarlierIff(names[i], names[j]);
    }
    hide Before;
    if EXE in components {
      var i :| 0 <= i < |names| && names[i] == EXE;
      assert i == |names| - 1;
    }
  }

  lemma {:induction false} SortedMembers(components: seq<string>)
    ensures Sorted(Names(components)) && forall n :: n in Names(components) <==> n in components
  {
    if components != [] {
      hide Before, Sorted;
      SortedMembers(components[1..]);
      var rest := Names(components[1..]);
      InsertSorted(rest, components[0]);
      forall n ensures n in Names(components) <==> n in components
      {
        InsertMember(rest, components[0], n);
        assert components == [components[0]] + components[1..];
      }
    } else {
      assert Sorted([]);
    }
  }

  /**
   During every apply of a plan, failing or not, a new executable in place means that every other managed entry is
   already new.
   */
  lemma NewExecutableIsLast(d0: Disk, components: seq<string>, f: Faults, i: nat)
    requires d0.backup == map[] && (forall n :: n in components ==> n in d0.package)
    requires "macvnc-app.exe" in components
    requires i < |ApplyFrom(d0, Names(components), f, 0).trace|
    ensures var d := ApplyFrom(d0, Names(components), f, 0).trace[i];
            Replaced(At(d0, "macvnc-app.exe"), At(d, "macvnc-app.exe")) ==>
              forall n :: n in components ==> At(d, n) == Spot(Get(d0.package, n), None, Get(d0.install, n))
  {
    hide ApplyFrom, Kept;
    NamesInOrder(components);
    var names := Names(components);
    ApplyKeeps(d0, names, f, i);
    var d := ApplyFrom(d0, names, f, 0).trace[i];
    if Replaced(At(d0, EXE), At(d, EXE)) {
      forall n | n in components ensures At(d, n) == Spot(Get(d0.package, n), None, Get(d0.install, n))
      {
        var k :| 0 <= k < |names| && names[k] == n;
        assert Replaced(At(d0, names[k]), At(d, names[k]));
      }
    }
  }
}
