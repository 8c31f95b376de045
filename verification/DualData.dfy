/**
 Two systems share one /data: one is live in its top level, the other is sealed in
 media/system-N. Opening and switching move top-level entries one rename at a time, and the
 power may fail before any of the renames, mkdirs and rmdirs.
 */
module DualData {

  type Id = n: int | 1 <= n <= 2 witness 1

  function Other(n: Id): Id { 3 - n }

  /** A top-level entry, labelled with the system it belongs to. */
  datatype Entry = Entry(system: Id, inode: nat)

  type Dir = map<string, Entry>

  const LAYOUT_VERSION := ".layout_version"

  /** /data without media, the directories media/system-N, and media/system-N.tmp. */
  datatype Fs = Fs(root: Dir, seal: map<Id, Dir>, tmp: map<Id, Dir>)

  /** What each system's data consists of. */
  type Owns = map<Id, Dir>

  predicate Labelled(owns: Owns) {
    && owns.Keys == {1, 2}
    && forall n <- owns, x <- owns[n] :: owns[n][x].system == n
  }

  /** A system with no entries may have lost its directory to the rmdir that cleans up. */
  predicate Sealed(fs: Fs, owns: Owns, n: Id)
    requires n in owns
  {
    if n in fs.seal then fs.seal[n] == owns[n] else owns[n] == map[]
  }

  predicate Live(fs: Fs, owns: Owns, n: Id)
    requires Labelled(owns)
  {
    fs.root == owns[n] && n !in fs.seal && fs.tmp == map[] && Sealed(fs, owns, Other(n))
  }

  predicate BothSealed(fs: Fs, owns: Owns)
    requires Labelled(owns)
  {
    fs.root == map[] && fs.tmp == map[] && Sealed(fs, owns, 1) && Sealed(fs, owns, 2)
  }

  predicate Split(a: Dir, b: Dir, whole: Dir) { a.Keys !! b.Keys && a + b == whole }

  /** System `n` is on its way in or out: some of it in the root, the rest in its .tmp. */
  predicate Moving(fs: Fs, owns: Owns, n: Id)
    requires Labelled(owns)
  {
    && fs.tmp.Keys == {n} && n !in fs.seal
    && Split(fs.root, fs.tmp[n], owns[n])
    && Sealed(fs, owns, Other(n))
  }

  predicate Settled(fs: Fs, owns: Owns)
    requires Labelled(owns)
  {
    Live(fs, owns, 1) || Live(fs, owns, 2) || BothSealed(fs, owns)
  }

  predicate Inv(fs: Fs, owns: Owns) {
    Labelled(owns) && (Settled(fs, owns) || Moving(fs, owns, 1) || Moving(fs, owns, 2))
  }

  // ----- what the invariant means -----

  predicate InRoot(fs: Fs, x: string, e: Entry) { x in fs.root && fs.root[x] == e }

  predicate InSeal(fs: Fs, n: Id, x: string, e: Entry) { n in fs.seal && x in fs.seal[n] && fs.seal[n][x] == e }

  predicate InTmp(fs: Fs, n: Id, x: string, e: Entry) { n in fs.tmp && x in fs.tmp[n] && fs.tmp[n][x] == e }

  /** Every entry of every system is in exactly one place. */
  lemma NothingLostOrDuplicated(fs: Fs, owns: Owns, n: Id, x: string)
    requires Inv(fs, owns) && x in owns[n]
    ensures var e := owns[n][x];
            && (InRoot(fs, x, e) || InSeal(fs, n, x, e) || InTmp(fs, n, x, e))
            && !(InRoot(fs, x, e) && InSeal(fs, n, x, e))
            && !(InRoot(fs, x, e) && InTmp(fs, n, x, e))
            && !(InSeal(fs, n, x, e) && InTmp(fs, n, x, e))
  {
    if Moving(fs, owns, n) {
      assert x in fs.root + fs.tmp[n];
    } else if Moving(fs, owns, Other(n)) {
      if x in fs.root {
        assert (fs.root + fs.tmp[Other(n)])[x] == fs.root[x];
      }
    }
  }

  /** No place holds entries of two systems, a sealed or moving directory only its own, and only one is moving. */
  lemma NothingMixed(fs: Fs, owns: Owns)
    requires Inv(fs, owns)
    ensures forall x <- fs.root, y <- fs.root :: fs.root[x].system == fs.root[y].system
    ensures forall n <- fs.seal, x <- fs.seal[n] :: fs.seal[n][x].system == n && owns[n][x] == fs.seal[n][x]
    ensures forall n <- fs.tmp, x <- fs.tmp[n] :: fs.tmp[n][x].system == n
    ensures forall m <- fs.tmp, n <- fs.tmp :: m == n
  {
    if m: Id :| Moving(fs, owns, m) {
      forall x <- fs.root
        ensures fs.root[x].system == m
      {
        assert (fs.root + fs.tmp[m])[x] == fs.root[x];
      }
      forall x <- fs.tmp[m]
        ensures fs.tmp[m][x].system == m
      {
        assert (fs.root + fs.tmp[m])[x] == fs.tmp[m][x];
      }
    }
  }

  /** With no .tmp left, each system is wholly in the root or wholly in its own directory. */
  lemma SettledIsWhole(fs: Fs, owns: Owns, n: Id)
    requires Inv(fs, owns) && fs.tmp == map[]
    ensures fs.root == owns[n] || (n in fs.seal && fs.seal[n] == owns[n]) || owns[n] == map[]
  {
  }

  /** With nothing sealed, the root is system `n`'s data unless only the other system has any. */
  lemma UnsealedRootIs(fs: Fs, owns: Owns, n: Id)
    requires Labelled(owns) && Settled(fs, owns) && fs.seal == map[]
    ensures fs.root == owns[n] <==> owns[n] != map[] || owns[Other(n)] == map[]
  {
    assert Other(n) in owns;
  }

  /** If only system `n` has data, two are set up exactly unless that data is what is live. */
  lemma OneInUse(fs: Fs, owns: Owns, n: Id)
    requires Inv(fs, owns) && owns[n] != map[] && owns[Other(n)] == map[]
    ensures TwoSetUp(fs) <==> !(fs.tmp == map[] && fs.root == owns[n])
  {
    CleanedUp(fs);
  }

  lemma SomeoneIsSealed(fs: Fs, owns: Owns)
    requires Labelled(owns) && Settled(fs, owns)
    ensures fs.seal != map[] <==> 1 in fs.seal || 2 in fs.seal
    ensures owns[1] != map[] && owns[2] != map[] ==> fs.seal != map[]
  {
    assert fs.seal == map[] <==> fs.seal.Keys == {};
  }

  /** Dual data as an open finds it: a move under way, or a sealed directory with something in it. */
  ghost predicate TwoSetUp(fs: Fs) {
    fs.tmp != map[] || exists n: Id | n in fs.seal :: fs.seal[n] != map[]
  }

  lemma CleanedUp(fs: Fs)
    ensures TwoSetUp(fs) <==>
            fs.tmp.Keys != {} || (1 in fs.seal && fs.seal[1] != map[]) || (2 in fs.seal && fs.seal[2] != map[])
  {
    assert fs.tmp == map[] <==> fs.tmp.Keys == {};
  }

  // ----- single renames -----

  lemma MoveOut(fs: Fs, owns: Owns, m: Id, x: string)
    requires Labelled(owns) && Moving(fs, owns, m) && x in fs.root
    ensures x !in fs.tmp[m]  // nothing is overwritten
    ensures Moving(fs.(root := fs.root - {x}, tmp := fs.tmp[m := fs.tmp[m][x := fs.root[x]]]), owns, m)
  {
    var root', dir' := fs.root - {x}, fs.tmp[m][x := fs.root[x]];
    assert root' + dir' == fs.root + fs.tmp[m];
  }

  lemma MoveIn(fs: Fs, owns: Owns, m: Id, x: string)
    requires Labelled(owns) && Moving(fs, owns, m) && x in fs.tmp[m]
    ensures x !in fs.root
    ensures Moving(fs.(root := fs.root[x := fs.tmp[m][x]], tmp := fs.tmp[m := fs.tmp[m] - {x}]), owns, m)
  {
    var root', dir' := fs.root[x := fs.tmp[m][x]], fs.tmp[m] - {x};
    assert root' + dir' == fs.root + fs.tmp[m];
  }

  // ----- what surrounds them -----

  /** The .tmp of a system that is live is made, and is empty. */
  lemma BeginPack(fs: Fs, owns: Owns, m: Id)
    requires Labelled(owns) && Live(fs, owns, m)
    ensures Moving(fs.(tmp := fs.tmp[m := map[]]), owns, m)
  {
    assert fs.root + map[] == fs.root;
  }

  /** Once everything is in it, the .tmp is renamed; nothing is overwritten, and nothing is nested. */
  lemma EndPack(fs: Fs, owns: Owns, m: Id)
    requires Labelled(owns) && Moving(fs, owns, m) && fs.root == map[]
    ensures m !in fs.seal && BothSealed(fs.(seal := fs.seal[m := fs.tmp[m]], tmp := fs.tmp - {m}), owns)
  {
    assert fs.root + fs.tmp[m] == fs.tmp[m];
  }

  /** The other way, the sealed directory becomes the .tmp. */
  lemma BeginUnpack(fs: Fs, owns: Owns, m: Id)
    requires Labelled(owns) && BothSealed(fs, owns) && m in fs.seal
    ensures Moving(fs.(seal := fs.seal - {m}, tmp := fs.tmp[m := fs.seal[m]]), owns, m)
  {
    assert fs.root + fs.seal[m] == fs.seal[m];
  }

  lemma EndUnpack(fs: Fs, owns: Owns, m: Id)
    requires Labelled(owns) && Moving(fs, owns, m) && fs.tmp[m] == map[]
    ensures Live(fs.(tmp := fs.tmp - {m}), owns, m)
  {
    assert fs.root + fs.tmp[m] == fs.root;
  }

  // ----- how much there is to move -----

  function Entries(owns: Owns): nat
    requires Labelled(owns)
  {
    |owns[1]| + |owns[2]|
  }

  lemma MovingSizes(fs: Fs, owns: Owns, m: Id)
    requires Labelled(owns) && Moving(fs, owns, m)
    ensures |fs.root| + |fs.tmp[m]| == |owns[m]|
  {
    assert (fs.root + fs.tmp[m]).Keys == fs.root.Keys + fs.tmp[m].Keys;
  }

  lemma OneLess(dir: Dir, x: string)
    requires x in dir
    ensures |dir - {x}| == |dir| - 1
  {
    assert (dir - {x}).Keys == dir.Keys - {x};
  }

  // ----- the layout version -----

  /** The only entry ever added is a missing layout version; nothing goes away or changes. */
  predicate Grown(was: Owns, is': Owns) {
    && Labelled(was) && Labelled(is')
    && forall n: Id :: is'[n] == was[n]
                       || (LAYOUT_VERSION !in was[n] && is'[n] == was[n][LAYOUT_VERSION := Entry(n, 0)])
  }

  lemma GrownEntries(was: Owns, is': Owns)
    requires Grown(was, is')
    ensures Entries(was) <= Entries(is') <= Entries(was) + 2
  {
    forall n: Id
      ensures |was[n]| <= |is'[n]| <= |was[n]| + 1
    {
      if is'[n] != was[n] {
        assert is'[n].Keys == was[n].Keys + {LAYOUT_VERSION};
      }
    }
  }

  datatype Result = Done | Died | Crashed

  /** At most `bound` steps were made; the power failed only if it was short of that. */
  predicate Within(r: Result, was: nat, is': nat, bound: nat) {
    was <= is' + bound && (r == Crashed ==> is' == 0 && was < bound)
  }

  class Volume {
    var root: Dir
    var seal: map<Id, Dir>
    var tmp: map<Id, Dir>
    var enabled: bool   // DUALDATA_ENABLED
    var power: nat      // how many more renames, mkdirs and rmdirs until the power fails
    ghost var owns: Owns

    ghost function View(): Fs
      reads this
    {
      Fs(root, seal, tmp)
    }

    ghost predicate Valid()
      reads this
    {
      Inv(View(), owns)
    }

    constructor (live: Id, liveData: Dir, sealedData: Dir)
      requires forall x <- liveData :: liveData[x].system == live
      requires forall x <- sealedData :: sealedData[x].system == Other(live)
      ensures Valid() && Live(View(), owns, live) && seal == map[Other(live) := sealedData]
      ensures owns == map[live := liveData, Other(live) := sealedData] && !enabled && power == 0
    {
      root := liveData;
      seal := map[Other(live) := sealedData];
      tmp := map[];
      enabled := false;
      power := 0;
      owns := map[live := liveData, Other(live) := sealedData];
    }

    /** The moves from the root into system-m.tmp; media itself stays. */
    method PackInto(m: Id) returns (r: Result)
      requires Valid() && Moving(View(), owns, m)
      modifies this`root, this`tmp, this`power
      ensures Moving(View(), owns, m) && r != Died && Within(r, old(power), power, |old(root)|)
      ensures r == Done ==> root == map[]
    {
      hide Split, Sealed;
      while root.Keys != {}
        invariant Moving(View(), owns, m)
        invariant old(power) + |root| == power + |old(root)|
        decreases root.Keys
      {
        if power == 0 {
          return Crashed;
        }
        power := power - 1;
        var x :| x in root.Keys;
        MoveOut(View(), owns, m, x);
        OneLess(root, x);
        root, tmp := root - {x}, tmp[m := tmp[m][x := root[x]]];
      }
      return Done;
    }

    /** The moves of the unpacking half of a switch, from system-m.tmp into the root. */
    method UnpackFrom(m: Id) returns (r: Result)
      requires Valid() && Moving(View(), owns, m)
      modifies this`root, this`tmp, this`power
      ensures Moving(View(), owns, m) && r != Died && Within(r, old(power), power, |old(tmp)[m]|)
      ensures r == Done ==> tmp[m] == map[]
    {
      hide Split, Sealed;
      while tmp[m].Keys != {}
        invariant Moving(View(), owns, m)
        invariant old(power) + |tmp[m]| == power + |old(tmp)[m]|
        decreases tmp[m].Keys
      {
        if power == 0 {
          return Crashed;
        }
        power := power - 1;
        var x :| x in tmp[m].Keys;
        MoveIn(View(), owns, m, x);
        OneLess(tmp[m], x);
        root, tmp := root[x := tmp[m][x]], tmp[m := tmp[m] - {x}];
      }
      return Done;
    }

    /** `rmdir system-n`, which only removes an empty directory. */
    method CleanEmpty(n: Id) returns (r: Result)
      requires Valid()
      modifies this`seal, this`power
      ensures Valid() && r != Died && Within(r, old(power), power, 1)
      ensures r == Done ==> seal == if n in old(seal) && old(seal)[n] == map[] then old(seal) - {n} else old(seal)
      ensures r == Crashed ==> seal == old(seal)
    {
      if n in seal && seal[n] == map[] {
        if power == 0 {
          return Crashed;
        }
        power := power - 1;
        seal := seal - {n};
      }
      return Done;
    }

    /** Finish a partial move of system `m`, if there is one. */
    method FinishMove(m: Id) returns (r: Result)
      requires Valid() && (m in tmp ==> Moving(View(), owns, m))
      modifies this`root, this`seal, this`tmp, this`power
      ensures Valid() && r != Died
      ensures Within(r, old(power), power, if m in old(tmp) then |owns[m]| + 1 else 0)
      ensures r == Done && m in old(tmp) ==> BothSealed(View(), owns) && seal.Keys == old(seal).Keys + {m}
      ensures m !in old(tmp) ==> r == Done && View() == old(View())
    {
      hide Sealed, Split, Live;
      if m in tmp {
        MovingSizes(View(), owns, m);
        r := PackInto(m);
        if r != Done {
          return;
        }
        if power == 0 {
          return Crashed;
        }
        power := power - 1;
        EndPack(View(), owns, m);
        seal, tmp := seal[m := tmp[m]], tmp - {m};
      }
      return Done;
    }

    /** dualdata_open: clean up, roll a partial move forward into a seal, and look whether two systems are set up. */
    method Open() returns (r: Result)
      requires Valid()
      modifies this
      ensures Valid() && r != Died && owns == old(owns)
      ensures Within(r, old(power), power, Entries(owns) + 3)
      ensures r == Done ==> Settled(View(), owns) && (enabled <==> seal != map[])
      ensures r == Done ==> (enabled <==> TwoSetUp(old(View())))
      ensures r == Done && owns[1] != map[] && owns[2] != map[] ==> enabled
    {
      hide Settled, Moving;
      enabled := false;
      r := CleanEmpty(1);
      if r == Done {
        r := CleanEmpty(2);
      }
      if r == Done {
        r := FinishMoves();
      }
      if r == Done {
        enabled := 1 in seal || 2 in seal;
        SomeoneIsSealed(View(), owns);
        CleanedUp(old(View()));
      }
    }

    /** The loop over the two ids; at most one of them has a .tmp. */
    method FinishMoves() returns (r: Result)
      requires Valid()
      modifies this`root, this`seal, this`tmp, this`power
      ensures Valid() && r != Died && Within(r, old(power), power, Entries(owns) + 1)
      ensures r == Done ==> Settled(View(), owns) && seal.Keys == old(seal).Keys + old(tmp).Keys
    {
      hide Sealed, Split;
      assert forall m <- tmp :: Moving(View(), owns, m);
      assert tmp.Keys <= {1, 2};
      r := FinishMove(1);
      if r == Done {
        r := FinishMove(2);
      }
    }

    /** dualdata_switchtodata, which follows a completed open. */
    method SwitchTo(u: int) returns (r: Result)
      requires Valid() && Settled(View(), owns) && (enabled <==> seal != map[])
      modifies this
      ensures Valid() && enabled == old(enabled) && Within(r, old(power), power, Entries(old(owns)) + 5)
      ensures r == Died <==> enabled && u != 1 && u != 2
      ensures r == Died || !enabled ==> View() == old(View()) && owns == old(owns)
      ensures r == Done && enabled ==> Live(View(), owns, u) && Other(u) in seal && LAYOUT_VERSION in root
      ensures Grown(old(owns), owns) && forall n: Id :: owns[n] == old(owns)[n] || n == u
    {
      if !enabled {
        return Done;
      }
      if u != 1 && u != 2 {
        return Died;
      }
      var p: Id := Other(u);
      r := Pack(p);
      if r == Done {
        r := Unpack(u);
      }
      if r == Done {
        r := CreateLayoutVersion(u);
      }
    }

    /** dualdata_create_layout_version_ on the live data. */
    method CreateLayoutVersion(u: Id) returns (r: Result)
      requires Valid() && Live(View(), owns, u)
      modifies this`root, this`power, this`owns
      ensures Valid() && Live(View(), owns, u) && r != Died && Within(r, old(power), power, 1)
      ensures r == Done ==> LAYOUT_VERSION in root
      ensures Grown(old(owns), owns) && forall n: Id :: owns[n] == old(owns)[n] || n == u
    {
      if LAYOUT_VERSION !in root {
        if power == 0 {
          return Crashed;
        }
        power := power - 1;
        root := root[LAYOUT_VERSION := Entry(u, 0)];
        owns := owns[u := root];
      }
      return Done;
    }

    /** If system `p` is not sealed, the root is its data: seal it. */
    method Pack(p: Id) returns (r: Result)
      requires Valid() && Settled(View(), owns) && seal != map[]
      modifies this`root, this`seal, this`tmp, this`power
      ensures Valid() && r != Died && Within(r, old(power), power, |owns[p]| + 2)
      ensures r == Done ==> Settled(View(), owns) && p in seal
    {
      assert seal.Keys != {};
      if p !in seal {
        assert Live(View(), owns, p);
        if power == 0 {
          return Crashed;
        }
        power := power - 1;
        BeginPack(View(), owns, p);
        tmp := tmp[p := map[]];
        r := FinishMove(p);
        return;
      }
      return Done;
    }

    /** If system `u` is sealed, bring it into the root. */
    method Unpack(u: Id) returns (r: Result)
      requires Valid() && Settled(View(), owns) && Other(u) in seal
      modifies this`root, this`seal, this`tmp, this`power
      ensures Valid() && r != Died && Within(r, old(power), power, |owns[u]| + 2)
      ensures r == Done ==> Live(View(), owns, u) && Other(u) in seal
    {
      if u in seal {
        assert BothSealed(View(), owns) && seal[u] == owns[u];
        if power == 0 {
          return Crashed;
        }
        power := power - 1;
        BeginUnpack(View(), owns, u);
        seal, tmp := seal - {u}, tmp[u := seal[u]];
        r := UnpackAndClean(u);
        return;
      }
      return Done;
    }

    /** The moves out of the .tmp, and its rmdir. */
    method UnpackAndClean(u: Id) returns (r: Result)
      requires Valid() && Moving(View(), owns, u)
      modifies this`root, this`tmp, this`power
      ensures Valid() && r != Died && Within(r, old(power), power, |old(tmp)[u]| + 1)
      ensures r == Done ==> Live(View(), owns, u)
    {
      hide Sealed, Split;
      r := UnpackFrom(u);
      if r == Done {
        if power == 0 {
          return Crashed;
        }
        power := power - 1;
        EndUnpack(View(), owns, u);
        tmp := tmp - {u};
      }
    }
  }
}
