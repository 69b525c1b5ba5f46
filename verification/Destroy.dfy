/**
 * Destroying a published database (destroy_database and inventory_for_destroy in src/db.rs): objects
 * are removed in an order, with directory syncs in between, such that a crash at any point leaves
 * something that the next attempt accepts and finishes.
 */
module Destroy {
  import opened Basics

  /** A partial index has lost some of its entries and can no longer be validated. */
  datatype IndexDir = NoIndex | FullIndex | PartialIndex

  /** The managed objects under the root. `vlog` is the directory with the ids of its files. */
  datatype Layout = Layout(format: bool, index: IndexDir, vlog: Option<set<nat>>)

  const EMPTY_LAYOUT := Layout(false, NoIndex, None)

  /**
   * What is visible now and what is certain to survive as removed: a crash may bring back any removal
   * that no directory sync has settled.
   */
  datatype Dirs = Dirs(visible: Layout, settled: Layout)

  // ---------------------------------------------------------------- what a crash can bring back

  predicate IndexBetween(l: IndexDir, visible: IndexDir, settled: IndexDir) {
    l == visible || l == settled || (l == PartialIndex && visible != settled)
  }

  predicate VLogBetween(l: Option<set<nat>>, visible: Option<set<nat>>, settled: Option<set<nat>>) {
    match l
    case None => visible.None?
    case Some(files) =>
      && settled.Some? && files <= settled.value
      && (visible.Some? ==> visible.value <= files)
  }

  predicate Between(l: Layout, d: Dirs) {
    && (l.format == d.visible.format || l.format == d.settled.format)
    && IndexBetween(l.index, d.visible.index, d.settled.index)
    && VLogBetween(l.vlog, d.visible.vlog, d.settled.vlog)
  }

  // ---------------------------------------------------------------- the inventory

  /** inventory_for_destroy, for a database without a temporary FORMAT file. */
  predicate Accepted(l: Layout) {
    if !l.format then l.index.NoIndex? && l.vlog.None?
    else match l.index
      case NoIndex => l.vlog.None?
      case FullIndex => true
      case PartialIndex => l.vlog.None?
  }

  // ---------------------------------------------------------------- syncs

  /** Syncing the root settles which of its children are gone. */
  function RootSynced(d: Dirs): Dirs {
    d.(settled := Layout(d.visible.format, if d.visible.index.NoIndex? then NoIndex else d.settled.index,
                         if d.visible.vlog.None? then None else d.settled.vlog))
  }

  /** Syncing the Value Log directory settles which of its files are gone. */
  function VLogSynced(d: Dirs): Dirs {
    if d.visible.vlog.Some? && d.settled.vlog.Some? then d.(settled := d.settled.(vlog := d.visible.vlog)) else d
  }

  // ---------------------------------------------------------------- the invariant

  /** Only removals are unsettled. */
  predicate OnlyRemovals(d: Dirs) {
    && (d.visible.format ==> d.settled.format)
    && (d.settled.index.NoIndex? ==> d.visible.index.NoIndex?)
    && (d.settled.index == PartialIndex ==> d.visible.index != FullIndex)
    && (d.visible.vlog.Some? ==> d.settled.vlog.Some? && d.visible.vlog.value <= d.settled.vlog.value)
  }

  /**
   * The index is not touched before the removal of the Value Log is settled, and FORMAT not before
   * the removal of both is.
   */
  predicate Inv(d: Dirs) {
    && OnlyRemovals(d)
    && (d.visible.index != FullIndex || d.settled.index != FullIndex ==> d.settled.vlog.None?)
    && (!d.visible.format ==> d.settled.index.NoIndex? && d.settled.vlog.None?)
  }

  /** A published database that nobody has started to destroy. */
  predicate Published(l: Layout) {
    l.format && l.index == FullIndex && l.vlog.Some?
  }

  lemma {:induction false} PublishedIsGood(l: Layout)
    requires Published(l)
    ensures Inv(Dirs(l, l))
  {
  }

  /** Whatever a crash leaves, the next inventory accepts it and the attempt may start over. */
  lemma {:induction false} CrashIsAccepted(d: Dirs, l: Layout)
    requires Inv(d) && Between(l, d)
    ensures Accepted(l) && Inv(Dirs(l, l))
  {
  }

  /** The inventory accepts exactly what a destroy can have left behind, with or without a crash. */
  lemma {:induction false} AcceptsExactly(l: Layout)
    ensures Accepted(l) <==> exists d :: Inv(d) && Between(l, d)
    ensures Accepted(l) <==> Inv(Dirs(l, l))
  {
    if Accepted(l) {
      assert Between(l, Dirs(l, l));
    }
    if d :| Inv(d) && Between(l, d) {
      CrashIsAccepted(d, l);
    }
  }

  /** An invariant state is itself one that the inventory accepts. */
  lemma {:induction false} VisibleIsAccepted(d: Dirs)
    requires Inv(d)
    ensures Accepted(d.visible)
  {
    CrashIsAccepted(d, d.visible);
  }

  // ---------------------------------------------------------------- the program

  datatype DestroyOutcome = Destroyed | Failed | Refused

  /** The file system; `budget` more effects succeed before the environment fails. */
  class Root {
    var dirs: Dirs
    var budget: nat

    constructor (l: Layout, budget: nat)
      ensures dirs == Dirs(l, l) && this.budget == budget && (Published(l) ==> Inv(dirs))
    {
      dirs, this.budget := Dirs(l, l), budget;
      if Published(l) { PublishedIsGood(l); }
    }

    /** Spends one effect, or fails. */
    method Spend() returns (ok: bool)
      modifies this`budget
      ensures ok <==> old(budget) > 0
      ensures budget == if ok then old(budget) - 1 else 0
    {
      ok := budget > 0;
      if ok {
        budget := budget - 1;
      }
    }

    method SyncRoot() returns (ok: bool)
      requires Inv(dirs)
      modifies this
      ensures Inv(dirs) && (ok ==> dirs == RootSynced(old(dirs))) && (!ok ==> dirs == old(dirs) && budget == 0)
      ensures old(budget) > 0 ==> ok && budget == old(budget) - 1
    {
      ok := Spend();
      if ok {
        dirs := RootSynced(dirs);
      }
    }

    /** Removes the files one by one, from the highest id down, then settles that they are gone. */
    method RemoveVLogFiles(files: seq<nat>) returns (ok: bool)
      requires Inv(dirs) && dirs.visible.vlog.Some? && dirs.visible.format && dirs.visible.index == FullIndex
      requires dirs.visible.vlog.value == set f | f in files
      modifies this
      ensures Inv(dirs) && (!ok ==> budget == 0)
      ensures ok ==> dirs.visible == old(dirs.visible).(vlog := Some({})) && dirs.settled.vlog == Some({})
      ensures old(budget) > |files| ==> ok && budget == old(budget) - |files| - 1
    {
      var n := |files|;
      ghost var start := dirs.visible;
      while n > 0
        invariant 0 <= n <= |files| && Inv(dirs) && budget == old(budget) - (|files| - n)
        invariant dirs.visible == start.(vlog := dirs.visible.vlog) && dirs.visible.vlog.Some?
        invariant forall f :: f in dirs.visible.vlog.value ==> f in files[..n]
      {
        ok := Spend();
        if !ok {
          return;
        }
        n := n - 1;
        var left := dirs.visible.vlog.value - {files[n]};
        forall f | f in left ensures f in files[..n] {
          assert files[..n + 1] == files[..n] + [files[n]];
        }
        dirs := dirs.(visible := dirs.visible.(vlog := Some(left)));
      }
      assert dirs.visible.vlog.value == {};
      ok := Spend();
      if ok {
        dirs := VLogSynced(dirs);
      }
    }

    /** Files, directory, root sync; or, if the directory is gone, the sync that settles it. */
    method RemoveVLog(files: seq<nat>) returns (ok: bool)
      requires Inv(dirs) && dirs.visible.format
      requires dirs.visible.vlog.Some? ==> dirs.visible.vlog.value == set f | f in files
      modifies this
      ensures Inv(dirs) && (!ok ==> budget == 0)
      ensures ok ==> dirs.visible == old(dirs.visible).(vlog := None)
      ensures ok && !dirs.visible.index.NoIndex? ==> dirs.settled.vlog.None?
      ensures old(budget) >= |files| + 3 ==> ok && budget >= old(budget) - |files| - 3
    {
      VisibleIsAccepted(dirs);
      if dirs.visible.vlog.Some? {
        ok := RemoveVLogFiles(files);
        if !ok {
          return;
        }
        ok := Spend();
        if !ok {
          return;
        }
        dirs := dirs.(visible := dirs.visible.(vlog := None));
        ok := SyncRoot();
      } else if !dirs.visible.index.NoIndex? {
        ok := SyncRoot();
      } else {
        ok := true;
      }
    }

    /** The index tree, entry by entry (`entries` of them), then the root sync; or only the sync. */
    method RemoveIndex(entries: nat) returns (ok: bool)
      requires Inv(dirs) && dirs.visible.format && dirs.visible.vlog.None?
      requires !dirs.visible.index.NoIndex? ==> dirs.settled.vlog.None?
      modifies this
      ensures Inv(dirs) && (!ok ==> budget == 0)
      ensures ok ==> dirs.visible == old(dirs.visible).(index := NoIndex)
      ensures ok ==> dirs.settled.index.NoIndex? && dirs.settled.vlog.None?
      ensures old(budget) >= entries + 2 ==> ok && budget >= old(budget) - entries - 2
    {
      if !dirs.visible.index.NoIndex? {
        ghost var start := dirs.visible;
        for i := 0 to entries
          invariant Inv(dirs) && dirs.settled.vlog.None? && !dirs.visible.index.NoIndex?
          invariant dirs.visible == start.(index := dirs.visible.index) && budget == old(budget) - i
        {
          ok := Spend();
          if !ok {
            return;
          }
          dirs := dirs.(visible := dirs.visible.(index := PartialIndex));
        }
        ok := Spend();
        if !ok {
          return;
        }
        dirs := dirs.(visible := dirs.visible.(index := NoIndex));
      }
      ok := SyncRoot();
    }

    /**
     * destroy_database. What the inventory does not accept is refused and left as it is. Otherwise an
     * attempt fails only if the environment fails it, and always leaves the invariant; a successful one
     * leaves nothing, and nothing can come back.
     */
    method DestroyDatabase(files: seq<nat>, entries: nat) returns (outcome: DestroyOutcome)
      requires Inv(dirs) || dirs.visible == dirs.settled
      requires dirs.visible.vlog.Some? ==> dirs.visible.vlog.value == set f | f in files
      modifies this
      ensures outcome == Refused <==> !Accepted(old(dirs.visible))
      ensures outcome == Refused ==> dirs == old(dirs)
      ensures outcome != Refused ==> Inv(dirs)
      ensures outcome == Failed ==> budget == 0 && old(budget) < |files| + entries + 7
      ensures outcome == Destroyed ==> dirs.visible == EMPTY_LAYOUT && dirs.settled == EMPTY_LAYOUT
    {
      if Inv(dirs) { VisibleIsAccepted(dirs); }
      AcceptsExactly(dirs.visible);
      if !Accepted(dirs.visible) {
        return Refused;
      }
      var ok := RemoveAll(files, entries);
      return if ok then Destroyed else Failed;
    }

    /** The removals in their order. */
    method RemoveAll(files: seq<nat>, entries: nat) returns (ok: bool)
      requires Inv(dirs)
      requires dirs.visible.vlog.Some? ==> dirs.visible.vlog.value == set f | f in files
      modifies this
      ensures Inv(dirs) && (!ok ==> budget == 0)
      ensures ok ==> dirs.visible == EMPTY_LAYOUT && dirs.settled == EMPTY_LAYOUT
      ensures old(budget) >= |files| + entries + 7 ==> ok
    {
      VisibleIsAccepted(dirs);
      if !dirs.visible.format {
        ok := SyncRoot();
        return;
      }
      ok := RemoveVLog(files);
      if !ok {
        return;
      }
      ok := RemoveIndex(entries);
      if !ok {
        return;
      }
      ok := Spend();
      if !ok {
        return;
      }
      dirs := dirs.(visible := dirs.visible.(format := false));
      ok := SyncRoot();
    }
  }

  // ---------------------------------------------------------------- restarting

  /**
   * Destroy is restartable: stop an attempt anywhere, crash, and let any unsettled removals reappear;
   * the remains are accepted, and an attempt that is not stopped removes everything for good.
   */
  method RestartDestroy(d: Dirs, after: Layout, files: seq<nat>, entries: nat, budget: nat)
    returns (outcome: DestroyOutcome, left: Dirs)
    requires Inv(d) && Between(after, d)
    requires after.vlog.Some? ==> after.vlog.value == set f | f in files
    ensures outcome != Refused && Inv(left)
    ensures outcome == Destroyed ==> left == Dirs(EMPTY_LAYOUT, EMPTY_LAYOUT)
    ensures budget >= |files| + entries + 7 ==> outcome == Destroyed
  {
    CrashIsAccepted(d, after);
    var root := new Root(after, budget);
    outcome := root.DestroyDatabase(files, entries);
    left := root.dirs;
  }
}
