/**
 Applying a staged restore: the live database, its sidecars, the master key and the themes are
 moved aside and replaced, with a rollback if any file operation fails on the way.
 */
module Restore {
  import opened Basics

  type Path = string

  /** What a path holds: the bytes of a file or the tree of a directory. */
  type Content = string

  type Files = map<Path, Content>

  function At(files: Files, p: Path): Option<Content> {
    if p in files then Some(files[p]) else None
  }

  datatype Lookup = Present | Missing | Unknown

  /**
   A file system whose operations may fail at any point: `fails` says which operations do, counted
   from the start, and `partial` what a failed recursive removal leaves behind.
   */
  class Disk {
    var files: Files
    var operations: nat
    const fails: nat -> bool
    const partial: nat -> Content
    /** Every state the disk has been in. */
    ghost var history: seq<Files>

    constructor (files: Files, fails: nat -> bool, partial: nat -> Content)
      ensures this.files == files && history == [files]
    {
      this.files, this.fails, this.partial := files, fails, partial;
      operations, history := 0, [files];
    }

    /** Nothing fails from operation `from` up to, but not including, operation `to`. */
    ghost predicate Quiet(from: nat, to: nat) { forall n :: from <= n < to ==> !fails(n) }

    /** The operations from `from` on succeeded until the one before `to`, which failed or had nothing to move. */
    ghost predicate StoppedAt(from: nat, to: nat, nothingToMove: bool) {
      from < to && Quiet(from, to - 1) && (fails(to - 1) || nothingToMove)
    }

    method Lstat(p: Path) returns (r: Lookup)
      modifies this
      ensures operations == old(operations) + 1
      ensures r.Unknown? <==> fails(old(operations))
      ensures files == old(files) && history == old(history) + [files]
      ensures r.Present? ==> p in files
      ensures r.Missing? ==> p !in files
    {
      r := if fails(operations) then Unknown else if p in files then Present else Missing;
      operations, history := operations + 1, history + [files];
    }

    method Rename(from: Path, to: Path) returns (ok: bool)
      modifies this
      ensures operations == old(operations) + 1
      ensures ok <==> !fails(old(operations)) && from in old(files)
      ensures ok ==> files == (old(files) - {from})[to := old(files)[from]]
      ensures !ok ==> files == old(files)
      ensures history == old(history) + [files]
    {
      ok := !fails(operations) && from in files;
      if ok {
        files := (files - {from})[to := files[from]];
      }
      operations, history := operations + 1, history + [files];
    }

    method RemoveAll(p: Path) returns (ok: bool)
      modifies this
      ensures operations == old(operations) + 1
      ensures !fails(old(operations)) ==> ok
      ensures ok ==> files == old(files) - {p}
      ensures !ok ==> files - {p} == old(files) - {p}
      ensures history == old(history) + [files]
    {
      ok := !fails(operations) || p !in files;
      if ok {
        files := files - {p};
      } else {
        files := files[p := partial(operations)];
      }
      operations, history := operations + 1, history + [files];
    }
  }

  /** What a path is to the swap: a live path, the saved name or the staged replacement of one, or unrelated. */
  datatype Role = Live | SavedOf(live: Path) | StagedOf(live: Path) | Other

  /** The live paths with the names they are saved under, and the staged replacement of those that get one. */
  datatype Layout = Layout(saved: map<Path, Path>, prepared: map<Path, Path>, role: Path -> Role)

  /** All names are different from each other, so that every path has one role. */
  ghost predicate WellFormed(l: Layout) {
    && (forall p :: p in l.saved ==> l.role(p) == Live && l.role(l.saved[p]) == SavedOf(p))
    && (forall p :: p in l.prepared ==> p in l.saved && l.role(l.prepared[p]) == StagedOf(p))
    && (forall x :: l.role(x) == Live ==> x in l.saved)
    && (forall x :: l.role(x).SavedOf? ==> l.role(x).live in l.saved && l.saved[l.role(x).live] == x)
    && (forall x :: l.role(x).StagedOf? ==> l.role(x).live in l.prepared && l.prepared[l.role(x).live] == x)
  }

  /**
   What a path should hold part-way through the swap: the live paths in `moved` are saved away, those
   in `active` hold their staged replacement, and the replacements in `used` have left their staging path.
   */
  function Expected(
    orig: Files, l: Layout, moved: set<Path>, active: set<Path>, used: set<Path>, x: Path): Option<Content> {
    match l.role(x)
    case Live =>
      if x in active then (if x in l.prepared then At(orig, l.prepared[x]) else None)
      else if x in moved then None else At(orig, x)
    case SavedOf(p) => if p in moved then At(orig, p) else None
    case StagedOf(p) => if p in used then None else At(orig, x)
    case Other => At(orig, x)
  }

  ghost predicate MidSwap(f: Files, orig: Files, l: Layout, moved: set<Path>, active: set<Path>, used: set<Path>) {
    forall x :: At(f, x) == Expected(orig, l, moved, active, used, x)
  }

  /** Every original is still somewhere: under its live path or under its saved name. */
  ghost predicate OriginalsKept(f: Files, orig: Files, l: Layout) {
    forall p :: p in l.saved && p in orig ==>
      At(f, p) == Some(orig[p]) || At(f, l.saved[p]) == Some(orig[p])
  }

  /** As above, and saved originals are exactly those in `moved`. */
  ghost predicate OriginalsAt(f: Files, orig: Files, l: Layout, moved: set<Path>) {
    forall p :: p in l.saved && p in orig ==>
      At(f, if p in moved then l.saved[p] else p) == Some(orig[p])
  }

  datatype Moved = Moved(current: Path, rollback: Path)

  function Currents(moved: seq<Moved>): set<Path> { set k | 0 <= k < |moved| :: moved[k].current }

  function Paths(s: seq<Path>): set<Path> { set k | 0 <= k < |s| :: s[k] }

  lemma CurrentsAppend(moved: seq<Moved>, m: Moved)
    ensures Currents(moved + [m]) == Currents(moved) + {m.current}
  {
    forall p | p in Currents(moved) + {m.current} ensures p in Currents(moved + [m]) {
      if p == m.current {
        assert (moved + [m])[|moved|].current == p;
      } else {
        var k :| 0 <= k < |moved| && moved[k].current == p;
        assert (moved + [m])[k].current == p;
      }
    }
  }

  lemma CurrentsHold(moved: seq<Moved>)
    ensures forall k :: 0 <= k < |moved| ==> moved[k].current in Currents(moved)
  {}

  lemma PathsHold(s: seq<Path>)
    ensures forall k :: 0 <= k < |s| ==> s[k] in Paths(s)
  {}

  lemma PathsAppend(s: seq<Path>, p: Path)
    ensures Paths(s + [p]) == Paths(s) + {p}
  {
    forall q | q in Paths(s) + {p} ensures q in Paths(s + [p]) {
      if q == p {
        assert (s + [p])[|s|] == q;
      } else {
        var k :| 0 <= k < |s| && s[k] == q;
        assert (s + [p])[k] == q;
      }
    }
  }

  lemma PathsUpTo(s: seq<Path>, index: nat)
    requires index < |s| && forall j, k :: 0 <= j < k < |s| ==> s[j] != s[k]
    ensures s[index] in Paths(s) && s[index] !in Paths(s[..index])
    ensures Paths(s[..index + 1]) == Paths(s[..index]) + {s[index]}
  {
    assert s[..index + 1] == s[..index] + [s[index]];
    PathsAppend(s[..index], s[index]);
  }

  lemma CurrentsUpTo(moved: seq<Moved>, index: nat)
    requires index < |moved| && forall j, k :: 0 <= j < k < |moved| ==> moved[j].current != moved[k].current
    ensures moved[index].current in Currents(moved) && moved[index].current !in Currents(moved[..index])
    ensures Currents(moved[..index + 1]) == Currents(moved[..index]) + {moved[index].current}
  {
    assert moved[..index + 1] == moved[..index] + [moved[index]];
    CurrentsAppend(moved[..index], moved[index]);
  }

  // ----- how one file operation moves the disk along

  lemma MoveAsideStep(
    f: Files, f1: Files, orig: Files, l: Layout, moved: set<Path>, active: set<Path>, used: set<Path>, p: Path)
    requires WellFormed(l) && MidSwap(f, orig, l, moved, active, used)
    requires p in l.saved && p !in moved && p !in active && p in f
    requires f1 == (f - {p})[l.saved[p] := f[p]]
    ensures p in orig && MidSwap(f1, orig, l, moved + {p}, active, used)
  {
    assert At(f, p) == Expected(orig, l, moved, active, used, p);
    forall x ensures At(f1, x) == Expected(orig, l, moved + {p}, active, used, x) {
      assert At(f, x) == Expected(orig, l, moved, active, used, x);
    }
  }

  lemma PresentIffOriginal(
    f: Files, orig: Files, l: Layout, moved: set<Path>, active: set<Path>, used: set<Path>, p: Path)
    requires WellFormed(l) && MidSwap(f, orig, l, moved, active, used)
    requires p in l.saved && p !in moved && p !in active
    ensures p in f <==> p in orig
  {
    assert At(f, p) == Expected(orig, l, moved, active, used, p);
  }

  lemma StagedUntilUsed(f: Files, orig: Files, l: Layout, moved: set<Path>, active: set<Path>, used: set<Path>, p: Path)
    requires WellFormed(l) && MidSwap(f, orig, l, moved, active, used)
    requires p in l.prepared && p !in used
    ensures l.prepared[p] in f <==> l.prepared[p] in orig
  {
    assert At(f, l.prepared[p]) == Expected(orig, l, moved, active, used, l.prepared[p]);
  }

  lemma ActivateStep(
    f: Files, f1: Files, orig: Files, l: Layout, moved: set<Path>, active: set<Path>, used: set<Path>, p: Path)
    requires WellFormed(l) && MidSwap(f, orig, l, moved, active, used)
    requires p in l.prepared && p !in active && p !in used && l.prepared[p] in f
    requires f1 == (f - {l.prepared[p]})[p := f[l.prepared[p]]]
    ensures MidSwap(f1, orig, l, moved, active + {p}, used + {p})
  {
    assert At(f, l.prepared[p]) == Expected(orig, l, moved, active, used, l.prepared[p]);
    forall x ensures At(f1, x) == Expected(orig, l, moved, active + {p}, used + {p}, x) {
      assert At(f, x) == Expected(orig, l, moved, active, used, x);
    }
  }

  lemma DeactivateStep(
    f: Files, f1: Files, orig: Files, l: Layout, moved: set<Path>, active: set<Path>, used: set<Path>, p: Path)
    requires WellFormed(l) && MidSwap(f, orig, l, moved, active + {p}, used)
    requires p in l.saved && (p in moved || p !in orig) && p !in active
    requires f1 == f - {p}
    ensures MidSwap(f1, orig, l, moved, active, used)
  {
    forall x ensures At(f1, x) == Expected(orig, l, moved, active, used, x) {
      assert At(f, x) == Expected(orig, l, moved, active + {p}, used, x);
    }
  }

  lemma MoveBackStep(f: Files, f1: Files, orig: Files, l: Layout, moved: set<Path>, used: set<Path>, p: Path)
    requires WellFormed(l) && MidSwap(f, orig, l, moved + {p}, {}, used)
    requires p in l.saved && p !in moved && l.saved[p] in f
    requires f1 == (f - {l.saved[p]})[p := f[l.saved[p]]]
    ensures MidSwap(f1, orig, l, moved, {}, used)
  {
    assert At(f, l.saved[p]) == Expected(orig, l, moved + {p}, {}, used, l.saved[p]);
    forall x ensures At(f1, x) == Expected(orig, l, moved, {}, used, x) {
      assert At(f, x) == Expected(orig, l, moved + {p}, {}, used, x);
    }
  }

  lemma MidSwapKeepsOriginals(f: Files, orig: Files, l: Layout, moved: set<Path>, active: set<Path>, used: set<Path>)
    requires WellFormed(l) && MidSwap(f, orig, l, moved, active, used)
    requires forall p :: p in active && p in orig ==> p in moved
    ensures OriginalsAt(f, orig, l, moved)
  {
    forall p | p in l.saved && p in orig
      ensures At(f, if p in moved then l.saved[p] else p) == Some(orig[p])
    {
      assert At(f, p) == Expected(orig, l, moved, active, used, p);
      assert At(f, l.saved[p]) == Expected(orig, l, moved, active, used, l.saved[p]);
    }
  }

  lemma OriginalsAtAreKept(f: Files, orig: Files, l: Layout, moved: set<Path>)
    requires OriginalsAt(f, orig, l, moved)
    ensures OriginalsKept(f, orig, l)
  {}

  // ----- the swap

  /** The rollback state that the swap accumulates, next to the disk it works on. */
  class Swap {
    const disk: Disk
    const layout: Layout
    var moved: seq<Moved>
    var activated: seq<Path>
    ghost const orig: Files
    ghost var used: set<Path>

    constructor (disk: Disk, layout: Layout)
      ensures this.disk == disk && this.layout == layout && orig == disk.files
      ensures moved == [] && activated == [] && used == {}
    {
      this.disk, this.layout, this.orig := disk, layout, disk.files;
      moved, activated, used := [], [], {};
    }

    /** The lists name different live paths, and only paths without an original are active but not moved. */
    ghost predicate ListsValid()
      reads this
    {
      && WellFormed(layout)
      && (forall k :: 0 <= k < |moved| ==>
            moved[k].current in layout.saved && moved[k].current in orig
            && moved[k].rollback == layout.saved[moved[k].current])
      && (forall j, k :: 0 <= j < k < |moved| ==> moved[j].current != moved[k].current)
      && (forall k :: 0 <= k < |activated| ==> activated[k] in layout.prepared && activated[k] in layout.saved)
      && (forall j, k :: 0 <= j < k < |activated| ==> activated[j] != activated[k])
      && (forall p :: p in Paths(activated) && p in orig ==> p in Currents(moved))
    }

    ghost predicate Safe()
      reads this, disk
    {
      forall k :: 0 <= k < |disk.history| ==> OriginalsKept(disk.history[k], orig, layout)
    }

    ghost predicate Valid()
      reads this, disk
    {
      && ListsValid() && Safe()
      && MidSwap(disk.files, orig, layout, Currents(moved), Paths(activated), used)
    }

    /** The originals are where the lists say, whatever the disk is doing. */
    lemma ValidKeepsOriginals()
      requires Valid()
      ensures OriginalsAt(disk.files, orig, layout, Currents(moved)) && OriginalsKept(disk.files, orig, layout)
    {
      MidSwapKeepsOriginals(disk.files, orig, layout, Currents(moved), Paths(activated), used);
      OriginalsAtAreKept(disk.files, orig, layout, Currents(moved));
    }

    method MoveExisting(current: Path) returns (ok: bool, did: bool)
      requires Valid() && current in layout.saved
      requires current !in Currents(moved) && current !in Paths(activated)
      modifies this`moved, disk
      ensures Valid()
      ensures did ==> ok
      ensures ok ==> (did <==> current in orig)
      ensures moved == if did then old(moved) + [Moved(current, layout.saved[current])] else old(moved)
      ensures Currents(moved) == old(Currents(moved)) + if did then {current} else {}
      ensures disk.operations >= old(disk.operations)
      ensures if ok then disk.Quiet(old(disk.operations), disk.operations)
              else disk.StoppedAt(old(disk.operations), disk.operations, false)
    {
      hide MidSwap, OriginalsAt, OriginalsKept, WellFormed, Currents, Paths;
      did := false;
      ValidKeepsOriginals();
      PresentIffOriginal(disk.files, orig, layout, Currents(moved), Paths(activated), used, current);
      ghost var before := disk.files;
      var found := disk.Lstat(current);
      if !found.Present? {
        return found.Missing?, false;
      }
      ok := disk.Rename(current, layout.saved[current]);
      if ok {
        MoveAsideStep(before, disk.files, orig, layout, Currents(moved), Paths(activated), used, current);
        CurrentsAppend(moved, Moved(current, layout.saved[current]));
        CurrentsHold(moved);
        did := true;
        moved := moved + [Moved(current, layout.saved[current])];
        MidSwapKeepsOriginals(disk.files, orig, layout, Currents(moved), Paths(activated), used);
        OriginalsAtAreKept(disk.files, orig, layout, Currents(moved));
      }
    }

    /** Renames the staged replacement over a live path that has been vacated. */
    method Activate(target: Path) returns (ok: bool)
      requires Valid() && target in layout.prepared && target in layout.saved
      requires target !in Paths(activated) && target !in used
      requires target in orig ==> target in Currents(moved)
      modifies this`activated, this`used, disk
      ensures Valid()
      ensures activated == if ok then old(activated) + [target] else old(activated)
      ensures used == if ok then old(used) + {target} else old(used)
      ensures Paths(activated) == old(Paths(activated)) + if ok then {target} else {}
      ensures disk.operations == old(disk.operations) + 1
      ensures ok <==> !disk.fails(old(disk.operations)) && layout.prepared[target] in orig
    {
      hide MidSwap, OriginalsAt, OriginalsKept, WellFormed, Currents, Paths;
      ValidKeepsOriginals();
      PathsHold(activated);
      StagedUntilUsed(disk.files, orig, layout, Currents(moved), Paths(activated), used, target);
      ghost var before := disk.files;
      ok := disk.Rename(layout.prepared[target], target);
      if ok {
        ActivateStep(before, disk.files, orig, layout, Currents(moved), Paths(activated), used, target);
        PathsAppend(activated, target);
        activated, used := activated + [target], used + {target};
        MidSwapKeepsOriginals(disk.files, orig, layout, Currents(moved), Paths(activated), used);
        OriginalsAtAreKept(disk.files, orig, layout, Currents(moved));
      }
    }

    /** Moves the sidecars of a live path aside, as far as they exist. */
    method MoveSidecars(sidecars: seq<Path>) returns (ok: bool)
      requires Valid()
      requires forall k :: 0 <= k < |sidecars| ==>
                 sidecars[k] in layout.saved && sidecars[k] !in Currents(moved) && sidecars[k] !in Paths(activated)
      requires forall j, k :: 0 <= j < k < |sidecars| ==> sidecars[j] != sidecars[k]
      modifies this`moved, disk
      ensures Valid()
      ensures ok ==> Currents(moved) == old(Currents(moved)) + Paths(sidecars) * orig.Keys
      ensures disk.operations >= old(disk.operations)
      ensures if ok then disk.Quiet(old(disk.operations), disk.operations)
              else disk.StoppedAt(old(disk.operations), disk.operations, false)
    {
      hide Currents, Paths, Valid;
      NothingListed();
      assert sidecars[..0] == [];
      for k := 0 to |sidecars|
        invariant Valid()
        invariant disk.operations >= old(disk.operations) && disk.Quiet(old(disk.operations), disk.operations)
        invariant Currents(moved) == old(Currents(moved)) + Paths(sidecars[..k]) * orig.Keys
        invariant forall j :: k <= j < |sidecars| ==> sidecars[j] !in Paths(sidecars[..k])
      {
        var moveOk, _ := MoveExisting(sidecars[k]);
        if !moveOk { return false; }
        PathsAppend(sidecars[..k], sidecars[k]);
        assert sidecars[..k + 1] == sidecars[..k] + [sidecars[k]];
      }
      assert sidecars[..|sidecars|] == sidecars;
      ok := true;
    }

    /** Moves a live path and its sidecars aside, then activates its replacement. */
    method Replace(target: Path, sidecars: seq<Path>) returns (ok: bool, did: bool)
      requires Valid() && target in layout.prepared && target in layout.saved && target !in used
      requires target !in Currents(moved) && target !in Paths(activated)
      requires forall k :: 0 <= k < |sidecars| ==>
                 sidecars[k] in layout.saved && sidecars[k] != target
                 && sidecars[k] !in Currents(moved) && sidecars[k] !in Paths(activated)
      requires forall j, k :: 0 <= j < k < |sidecars| ==> sidecars[j] != sidecars[k]
      modifies this`moved, this`activated, this`used, disk
      ensures Valid()
      ensures ok ==> (did <==> target in orig)
      ensures ok ==> Currents(moved) == old(Currents(moved)) + ({target} + Paths(sidecars)) * orig.Keys
      ensures ok ==> Paths(activated) == old(Paths(activated)) + {target} && used == old(used) + {target}
      ensures disk.operations >= old(disk.operations)
      ensures if ok then disk.Quiet(old(disk.operations), disk.operations)
              else disk.StoppedAt(old(disk.operations), disk.operations, layout.prepared[target] !in orig)
      ensures ok ==> layout.prepared[target] in orig
    {
      hide Currents, Paths, Valid;
      ok, did := MoveExisting(target);
      if !ok { return; }
      ok := MoveSidecars(sidecars);
      if !ok { return; }
      ok := Activate(target);
    }

    /** Removes what was activated, newest first. */
    method RemoveActivated() returns (clean: bool)
      requires Valid()
      modifies disk
      ensures ListsValid() && Safe() && OriginalsAt(disk.files, orig, layout, Currents(moved))
      ensures clean ==> MidSwap(disk.files, orig, layout, Currents(moved), {}, used)
      ensures disk.operations >= old(disk.operations)
      ensures disk.Quiet(old(disk.operations), disk.operations) ==> clean
    {
      hide MidSwap, OriginalsAt, OriginalsKept, WellFormed, Paths, Currents;
      clean := true;
      ValidKeepsOriginals();
      NothingListed();
      var index := |activated|;
      assert activated[..index] == activated;
      while index > 0
        invariant 0 <= index <= |activated| && disk.operations >= old(disk.operations)
        invariant disk.Quiet(old(disk.operations), disk.operations) ==> clean
        invariant ListsValid() && Safe() && OriginalsAt(disk.files, orig, layout, Currents(moved))
        invariant clean ==> MidSwap(disk.files, orig, layout, Currents(moved), Paths(activated[..index]), used)
      {
        index := index - 1;
        ghost var before := disk.files;
        var p := activated[index];
        PathsUpTo(activated, index);
        var ok := disk.RemoveAll(p);
        RemovalKeepsOriginals(before, disk.files, orig, layout, Currents(moved), p);
        OriginalsAtAreKept(disk.files, orig, layout, Currents(moved));
        if !ok {
          clean := false;
        } else if clean {
          DeactivateStep(before, disk.files, orig, layout, Currents(moved), Paths(activated[..index]), used, p);
        }
      }
      assert activated[..0] == [];
    }

    /** Renames the saved originals back, newest first. */
    method MoveBack(cleanSoFar: bool) returns (clean: bool)
      requires ListsValid() && Safe() && OriginalsAt(disk.files, orig, layout, Currents(moved))
      requires cleanSoFar ==> MidSwap(disk.files, orig, layout, Currents(moved), {}, used)
      modifies disk
      ensures Safe()
      ensures clean ==> cleanSoFar && MidSwap(disk.files, orig, layout, {}, {}, used)
      ensures disk.operations >= old(disk.operations)
      ensures cleanSoFar && disk.Quiet(old(disk.operations), disk.operations) ==> clean
    {
      hide MidSwap, OriginalsAt, OriginalsKept, WellFormed, Paths, Currents;
      clean := cleanSoFar;
      NothingListed();
      var index := |moved|;
      assert moved[..index] == moved;
      ghost var away := Currents(moved);
      while index > 0
        invariant 0 <= index <= |moved| && disk.operations >= old(disk.operations)
        invariant cleanSoFar && disk.Quiet(old(disk.operations), disk.operations) ==> clean
        invariant Safe() && OriginalsAt(disk.files, orig, layout, away)
        invariant Currents(moved[..index]) <= away <= Currents(moved)
        invariant clean ==> cleanSoFar && MidSwap(disk.files, orig, layout, Currents(moved[..index]), {}, used)
      {
        index := index - 1;
        var item := moved[index];
        ghost var before := disk.files;
        CurrentsUpTo(moved, index);
        SavedWhileAway(disk.files, orig, layout, away, item.current);
        var ok := disk.Rename(item.rollback, item.current);
        if ok {
          MoveBackKeepsOriginals(before, disk.files, orig, layout, away, item.current);
          away := away - {item.current};
          if clean {
            MoveBackStep(before, disk.files, orig, layout, Currents(moved[..index]), used, item.current);
          }
        } else {
          clean := false;
        }
        OriginalsAtAreKept(disk.files, orig, layout, away);
      }
      assert moved[..0] == [];
    }

    /** Undoes the swap as far as the disk lets it. */
    method Rollback() returns (clean: bool)
      requires Valid()
      modifies disk
      ensures Safe()
      ensures clean ==> MidSwap(disk.files, orig, layout, {}, {}, used)
      ensures disk.operations >= old(disk.operations)
      ensures disk.Quiet(old(disk.operations), disk.operations) ==> clean
    {
      clean := RemoveActivated();
      clean := MoveBack(clean);
    }
  }

  lemma RemovalKeepsOriginals(f: Files, f1: Files, orig: Files, l: Layout, moved: set<Path>, p: Path)
    requires WellFormed(l) && OriginalsAt(f, orig, l, moved)
    requires p in l.saved && (p in orig ==> p in moved) && f1 - {p} == f - {p}
    ensures OriginalsAt(f1, orig, l, moved)
  {
    forall q | q in l.saved && q in orig
      ensures At(f1, if q in moved then l.saved[q] else q) == Some(orig[q])
    {
      var x := if q in moved then l.saved[q] else q;
      assert x != p;
      assert At(f1 - {p}, x) == At(f - {p}, x);
    }
  }

  lemma SavedWhileAway(f: Files, orig: Files, l: Layout, away: set<Path>, p: Path)
    requires OriginalsAt(f, orig, l, away) && p in away && p in l.saved && p in orig
    ensures l.saved[p] in f
  {
    assert At(f, l.saved[p]) == Some(orig[p]);
  }

  lemma MoveBackKeepsOriginals(f: Files, f1: Files, orig: Files, l: Layout, away: set<Path>, p: Path)
    requires WellFormed(l) && OriginalsAt(f, orig, l, away)
    requires p in l.saved && p in away && p in orig && l.saved[p] in f
    requires f1 == (f - {l.saved[p]})[p := f[l.saved[p]]]
    ensures OriginalsAt(f1, orig, l, away - {p})
  {}

  // ----- the paths of an installation

  /** The database with its two SQLite sidecars, the master key and the themes directory. */
  datatype Places = Places(
    database: Path, wal: Path, shm: Path, key: Path, themes: Path,
    databaseSaved: Path, walSaved: Path, shmSaved: Path, keySaved: Path, themesSaved: Path,
    databaseNew: Path, keyNew: Path, themesNew: Path)

  function Names(pl: Places): seq<Path> {
    [pl.database, pl.wal, pl.shm, pl.key, pl.themes,
     pl.databaseSaved, pl.walSaved, pl.shmSaved, pl.keySaved, pl.themesSaved,
     pl.databaseNew, pl.keyNew, pl.themesNew]
  }

  ghost predicate AllDifferent(names: seq<Path>) {
    forall i, j :: 0 <= i < j < |names| ==> names[i] != names[j]
  }

  function RoleIn(pl: Places, x: Path): Role {
    if x in {pl.database, pl.wal, pl.shm, pl.key, pl.themes} then Live
    else if x == pl.databaseSaved then SavedOf(pl.database)
    else if x == pl.walSaved then SavedOf(pl.wal)
    else if x == pl.shmSaved then SavedOf(pl.shm)
    else if x == pl.keySaved then SavedOf(pl.key)
    else if x == pl.themesSaved then SavedOf(pl.themes)
    else if x == pl.databaseNew then StagedOf(pl.database)
    else if x == pl.keyNew then StagedOf(pl.key)
    else if x == pl.themesNew then StagedOf(pl.themes)
    else Other
  }

  function SavedNames(pl: Places): map<Path, Path> {
    map[pl.database := pl.databaseSaved, pl.wal := pl.walSaved, pl.shm := pl.shmSaved,
        pl.key := pl.keySaved, pl.themes := pl.themesSaved]
  }

  function StagedNames(pl: Places): map<Path, Path> {
    map[pl.database := pl.databaseNew, pl.key := pl.keyNew, pl.themes := pl.themesNew]
  }

  function LayoutOf(pl: Places): Layout {
    Layout(SavedNames(pl), StagedNames(pl), x => RoleIn(pl, x))
  }

  /** The live names, told apart. */
  lemma LiveNamesDiffer(pl: Places)
    requires AllDifferent(Names(pl))
    ensures pl.database !in {pl.wal, pl.shm, pl.key, pl.themes} && pl.wal !in {pl.shm, pl.key, pl.themes}
            && pl.shm !in {pl.key, pl.themes} && pl.key != pl.themes
  {
    var n := Names(pl);
    assert n[0] == pl.database && n[1] == pl.wal && n[2] == pl.shm && n[3] == pl.key && n[4] == pl.themes;
  }

  /** The saved names, told apart from each other and from the live ones. */
  lemma SavedNamesDiffer(pl: Places)
    requires AllDifferent(Names(pl))
    ensures {pl.database, pl.wal, pl.shm, pl.key, pl.themes} !! {pl.databaseSaved, pl.walSaved, pl.shmSaved,
            pl.keySaved, pl.themesSaved}
    ensures pl.databaseSaved !in {pl.walSaved, pl.shmSaved, pl.keySaved, pl.themesSaved}
            && pl.walSaved !in {pl.shmSaved, pl.keySaved, pl.themesSaved}
            && pl.shmSaved !in {pl.keySaved, pl.themesSaved} && pl.keySaved != pl.themesSaved
  {
    var n := Names(pl);
    assert n[0] == pl.database && n[1] == pl.wal && n[2] == pl.shm && n[3] == pl.key && n[4] == pl.themes;
    assert n[5] == pl.databaseSaved && n[6] == pl.walSaved && n[7] == pl.shmSaved && n[8] == pl.keySaved
        && n[9] == pl.themesSaved;
  }

  /** The staged names, told apart from each other and from the live ones. */
  lemma StagedNamesDiffer(pl: Places)
    requires AllDifferent(Names(pl))
    ensures {pl.database, pl.wal, pl.shm, pl.key, pl.themes} !! {pl.databaseNew, pl.keyNew, pl.themesNew}
    ensures pl.databaseNew !in {pl.keyNew, pl.themesNew} && pl.keyNew != pl.themesNew
  {
    var n := Names(pl);
    assert n[0] == pl.database && n[1] == pl.wal && n[2] == pl.shm && n[3] == pl.key && n[4] == pl.themes;
    assert n[10] == pl.databaseNew && n[11] == pl.keyNew && n[12] == pl.themesNew;
  }

  lemma SavedAndStagedDiffer(pl: Places)
    requires AllDifferent(Names(pl))
    ensures {pl.databaseSaved, pl.walSaved, pl.shmSaved, pl.keySaved, pl.themesSaved} !! {pl.databaseNew, pl.keyNew,
            pl.themesNew}
  {
    var n := Names(pl);
    assert n[5] == pl.databaseSaved && n[6] == pl.walSaved && n[7] == pl.shmSaved && n[8] == pl.keySaved
        && n[9] == pl.themesSaved;
    assert n[10] == pl.databaseNew && n[11] == pl.keyNew && n[12] == pl.themesNew;
  }

  /** Different names, spelled out. */
  lemma NamesDiffer(pl: Places)
    requires AllDifferent(Names(pl))
    ensures pl.database !in {pl.wal, pl.shm, pl.key, pl.themes} && pl.wal !in {pl.shm, pl.key, pl.themes}
            && pl.shm !in {pl.key, pl.themes} && pl.key != pl.themes
    ensures {pl.database, pl.wal, pl.shm, pl.key, pl.themes} !! {pl.databaseSaved, pl.walSaved, pl.shmSaved,
            pl.keySaved, pl.themesSaved}
    ensures {pl.database, pl.wal, pl.shm, pl.key, pl.themes} !! {pl.databaseNew, pl.keyNew, pl.themesNew}
    ensures {pl.databaseSaved, pl.walSaved, pl.shmSaved, pl.keySaved, pl.themesSaved} !! {pl.databaseNew, pl.keyNew,
            pl.themesNew}
    ensures pl.databaseSaved !in {pl.walSaved, pl.shmSaved, pl.keySaved, pl.themesSaved}
            && pl.walSaved !in {pl.shmSaved, pl.keySaved, pl.themesSaved}
            && pl.shmSaved !in {pl.keySaved, pl.themesSaved} && pl.keySaved != pl.themesSaved
    ensures pl.databaseNew !in {pl.keyNew, pl.themesNew} && pl.keyNew != pl.themesNew
  {
    hide Names, AllDifferent;
    LiveNamesDiffer(pl);
    SavedNamesDiffer(pl);
    StagedNamesDiffer(pl);
    SavedAndStagedDiffer(pl);
  }

  lemma SavedRole(pl: Places, p: Path)
    requires AllDifferent(Names(pl)) && p in SavedNames(pl)
    ensures RoleIn(pl, p) == Live && RoleIn(pl, SavedNames(pl)[p]) == SavedOf(p)
  {
    hide Names, AllDifferent;
    NamesDiffer(pl);
  }

  lemma StagedRole(pl: Places, p: Path)
    requires AllDifferent(Names(pl)) && p in StagedNames(pl)
    ensures p in SavedNames(pl) && RoleIn(pl, StagedNames(pl)[p]) == StagedOf(p)
  {
    hide Names, AllDifferent;
    NamesDiffer(pl);
  }

  lemma RoleInverts(pl: Places, x: Path)
    requires AllDifferent(Names(pl))
    ensures RoleIn(pl, x) == Live ==> x in SavedNames(pl)
    ensures RoleIn(pl, x).SavedOf? ==> RoleIn(pl, x).live in SavedNames(pl) && SavedNames(pl)[RoleIn(pl, x).live] == x
    ensures RoleIn(pl, x).StagedOf? ==>
              RoleIn(pl, x).live in StagedNames(pl) && StagedNames(pl)[RoleIn(pl, x).live] == x
  {
    hide Names, AllDifferent;
    NamesDiffer(pl);
  }

  lemma LayoutWellFormed(pl: Places)
    requires AllDifferent(Names(pl))
    ensures WellFormed(LayoutOf(pl))
  {
    hide Names, AllDifferent, RoleIn, SavedNames, StagedNames;
    var l := LayoutOf(pl);
    forall p | p in l.saved ensures l.role(p) == Live && l.role(l.saved[p]) == SavedOf(p) { SavedRole(pl, p); }
    forall p | p in l.prepared ensures p in l.saved && l.role(l.prepared[p]) == StagedOf(p) { StagedRole(pl, p); }
    forall x
      ensures l.role(x) == Live ==> x in l.saved
      ensures l.role(x).SavedOf? ==> l.role(x).live in l.saved && l.saved[l.role(x).live] == x
      ensures l.role(x).StagedOf? ==> l.role(x).live in l.prepared && l.prepared[l.role(x).live] == x
    {
      RoleInverts(pl, x);
    }
  }

  // ----- applying a restore

  datatype Receipt = Receipt(databaseSaved: Option<Path>, keySaved: Option<Path>, themesSaved: Option<Path>)

  datatype Outcome = Applied(receipt: Receipt) | RolledBack(clean: bool)

  /** The live installation holds the staged content, without sidecars, and the originals are saved. */
  ghost predicate Swapped(f: Files, orig: Files, pl: Places) {
    && At(f, pl.database) == At(orig, pl.databaseNew)
    && At(f, pl.wal) == None && At(f, pl.shm) == None
    && At(f, pl.key) == At(orig, pl.keyNew)
    && At(f, pl.themes) == At(orig, pl.themesNew)
    && At(f, pl.databaseSaved) == At(orig, pl.database)
    && At(f, pl.walSaved) == At(orig, pl.wal) && At(f, pl.shmSaved) == At(orig, pl.shm)
    && At(f, pl.keySaved) == At(orig, pl.key) && At(f, pl.themesSaved) == At(orig, pl.themes)
  }

  /** Nothing but the staged copies may differ from before. */
  ghost predicate Untouched(f: Files, orig: Files, pl: Places) {
    forall x :: x !in {pl.databaseNew, pl.keyNew, pl.themesNew} ==> At(f, x) == At(orig, x)
  }

  lemma FullSwap(f: Files, orig: Files, pl: Places, moved: set<Path>, used: set<Path>)
    requires AllDifferent(Names(pl))
    requires MidSwap(f, orig, LayoutOf(pl), moved, {pl.database, pl.key, pl.themes}, used)
    requires forall p :: p in {pl.database, pl.wal, pl.shm, pl.key, pl.themes} ==> (p in moved <==> p in orig)
    ensures Swapped(f, orig, pl)
  {
    NamesDiffer(pl);
    var l, active := LayoutOf(pl), {pl.database, pl.key, pl.themes};
    forall p | p in {pl.database, pl.wal, pl.shm, pl.key, pl.themes}
      ensures At(f, p) == (if p in active then At(orig, l.prepared[p]) else None)
      ensures At(f, l.saved[p]) == At(orig, p)
    {
      SavedRole(pl, p);
      assert At(f, p) == Expected(orig, l, moved, active, used, p);
      assert At(f, l.saved[p]) == Expected(orig, l, moved, active, used, l.saved[p]);
    }
  }

  lemma NoSwap(f: Files, orig: Files, pl: Places, used: set<Path>)
    requires AllDifferent(Names(pl))
    requires MidSwap(f, orig, LayoutOf(pl), {}, {}, used)
    requires forall p :: p in SavedNames(pl) ==> SavedNames(pl)[p] !in orig
    ensures Untouched(f, orig, pl)
  {
    forall x | x !in {pl.databaseNew, pl.keyNew, pl.themesNew} ensures At(f, x) == At(orig, x) {
      RoleInverts(pl, x);
      assert At(f, x) == Expected(orig, LayoutOf(pl), {}, {}, used, x);
    }
  }

  /**
   The swap as a whole, for every way in which its file operations can fail. It stops at the first
   operation that fails or has no staged copy to move, and rolls back with the operations from
   `rollbackFrom` on. If none of those fails, the rollback is clean and the installation exactly as
   before; if the swap succeeds, the staged content is live; and at no moment is an original lost.
   */
  method ApplyRestore(disk: Disk, pl: Places) returns (outcome: Outcome, ghost rollbackFrom: nat)
    requires AllDifferent(Names(pl))
    requires forall p :: p in SavedNames(pl) ==> SavedNames(pl)[p] !in disk.files
    requires disk.history == [disk.files]
    modifies disk
    ensures outcome.Applied? ==> Swapped(disk.files, old(disk.files), pl)
    ensures outcome.Applied? ==>
              outcome.receipt == Receipt(if pl.database in old(disk.files) then Some(pl.databaseSaved) else None,
                                         if pl.key in old(disk.files) then Some(pl.keySaved) else None,
                                         if pl.themes in old(disk.files) then Some(pl.themesSaved) else None)
    ensures outcome.RolledBack? && outcome.clean ==> Untouched(disk.files, old(disk.files), pl)
    ensures outcome.RolledBack? ==> rollbackFrom <= disk.operations
    ensures outcome.RolledBack? ==>
              disk.StoppedAt(old(disk.operations), rollbackFrom, !(StagedNames(pl).Values <= old(disk.files).Keys))
    ensures outcome.RolledBack? && disk.Quiet(rollbackFrom, disk.operations) ==> outcome.clean
    ensures outcome.Applied? ==>
              disk.Quiet(old(disk.operations), disk.operations) && StagedNames(pl).Values <= old(disk.files).Keys
    ensures forall k :: 0 <= k < |disk.history| ==> OriginalsKept(disk.history[k], old(disk.files), LayoutOf(pl))
  {
    hide Names, AllDifferent, MidSwap, Swapped, Untouched;
    InitialMidSwap(disk.files, pl);
    var swap := new Swap(disk, LayoutOf(pl));
    assert swap.Valid() by { StartValid(swap, pl); }
    var ok, receipt := Forward(swap, pl);
    rollbackFrom := disk.operations;
    if ok {
      FullSwap(disk.files, swap.orig, pl, Currents(swap.moved), swap.used);
      outcome := Applied(receipt);
    } else {
      var clean := swap.Rollback();
      if clean {
        NoSwap(disk.files, swap.orig, pl, swap.used);
      }
      outcome := RolledBack(clean);
    }
  }

  lemma InitialMidSwap(f: Files, pl: Places)
    requires AllDifferent(Names(pl))
    requires forall p :: p in SavedNames(pl) ==> SavedNames(pl)[p] !in f
    ensures WellFormed(LayoutOf(pl)) && MidSwap(f, f, LayoutOf(pl), {}, {}, {})
  {
    hide Names, AllDifferent, RoleIn, SavedNames, StagedNames;
    LayoutWellFormed(pl);
    forall x ensures At(f, x) == Expected(f, LayoutOf(pl), {}, {}, {}, x) {
      RoleInverts(pl, x);
    }
  }

  lemma StartValid(swap: Swap, pl: Places)
    requires swap.layout == LayoutOf(pl) && swap.moved == [] && swap.activated == [] && swap.used == {}
    requires swap.orig == swap.disk.files && swap.disk.history == [swap.disk.files]
    requires WellFormed(LayoutOf(pl)) && MidSwap(swap.orig, swap.orig, LayoutOf(pl), {}, {}, {})
    ensures swap.Valid()
  {
    hide MidSwap, WellFormed, LayoutOf;
    assert Currents([]) == {} && Paths([]) == {};
  }

  /** The eight file operations of the swap, stopping at the first that fails. */
  method Forward(swap: Swap, pl: Places) returns (ok: bool, receipt: Receipt)
    requires swap.layout == LayoutOf(pl) && AllDifferent(Names(pl))
    requires swap.Valid() && swap.moved == [] && swap.activated == [] && swap.used == {}
    modifies swap, swap.disk
    ensures swap.Valid()
    ensures ok ==> Paths(swap.activated) == {pl.database, pl.key, pl.themes}
    ensures ok ==> forall p :: p in {pl.database, pl.wal, pl.shm, pl.key, pl.themes} ==>
                     (p in Currents(swap.moved) <==> p in swap.orig)
    ensures ok ==> receipt == Receipt(if pl.database in swap.orig then Some(pl.databaseSaved) else None,
                                      if pl.key in swap.orig then Some(pl.keySaved) else None,
                                      if pl.themes in swap.orig then Some(pl.themesSaved) else None)
    ensures swap.disk.operations >= old(swap.disk.operations)
    ensures var staged := StagedNames(pl).Values <= swap.orig.Keys;
            if ok then swap.disk.Quiet(old(swap.disk.operations), swap.disk.operations) && staged
            else swap.disk.StoppedAt(old(swap.disk.operations), swap.disk.operations, !staged)
  {
    hide Names, AllDifferent, MidSwap, WellFormed, RoleIn, Swap.Valid, Currents, Paths;
    LiveNamesDiffer(pl);
    NothingListed();
    receipt := Receipt(None, None, None);
    var did: bool;
    ok, did := swap.Replace(pl.database, [pl.wal, pl.shm]);
    if !ok { return; }
    if did {
      receipt := receipt.(databaseSaved := Some(pl.databaseSaved));
    }
    TwoPaths(pl.wal, pl.shm);
    ok, did := swap.Replace(pl.key, []);
    if !ok { return; }
    if did {
      receipt := receipt.(keySaved := Some(pl.keySaved));
    }
    ok, did := swap.Replace(pl.themes, []);
    if !ok { return; }
    if did {
      receipt := receipt.(themesSaved := Some(pl.themesSaved));
    }
  }

  lemma NothingListed()
    ensures Currents([]) == {} && Paths([]) == {}
  {}

  lemma TwoPaths(p: Path, q: Path)
    ensures Paths([p, q]) == {p, q}
  {
    assert [p, q][0] == p && [p, q][1] == q;
  }
}
