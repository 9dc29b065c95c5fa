/** Recovery of VMs from their runtime directories after a daemon restart. */
module Reconnect {
  import opened Prelude

  datatype VmMeta = VmMeta(vmId: string, pid: nat, socket: string)

  /**
   What a name under the base directory is: a plain file, a directory without
   `meta.json`, or one with it, which may parse as VM metadata and may say it
   belongs to a container.
   */
  datatype Content = File | Bare | WithMeta(vm: Option<VmMeta>, container: bool)

  /** The processes, the sockets, and whether a directory can be removed. */
  datatype World = World(alive: nat -> bool, ping: string -> bool, removable: string -> bool)

  datatype Reason = DeadPid | SilentSocket

  /** Where the scan puts a name. */
  datatype Verdict = NotADirectory | Orphan | Container | Lost(vmId: string, reason: Reason) | Recovered(meta: VmMeta)

  function Judge(w: World, c: Content): Verdict {
    match c
    case File => NotADirectory
    case Bare => Orphan
    case WithMeta(None, container) => if container then Container else Orphan
    case WithMeta(Some(m), _) =>
      if !w.alive(m.pid) then Lost(m.vmId, DeadPid)
      else if !w.ping(m.socket) then Lost(m.vmId, SilentSocket)
      else Recovered(m)
  }

  type Dirs = map<string, Content>

  /** Each name of the base directory once, in the order the system lists them. */
  ghost predicate Lists(names: seq<string>, dirs: Dirs) {
    && (forall i :: 0 <= i < |names| ==> names[i] in dirs)
    && (forall n :: n in dirs ==> n in names)
    && (forall i, j :: 0 <= i < j < |names| ==> names[i] != names[j])
  }

  ghost predicate Known(names: seq<string>, dirs: Dirs) {
    forall i :: 0 <= i < |names| ==> names[i] in dirs
  }

  ghost function RecoveredOf(w: World, dirs: Dirs, names: seq<string>): seq<VmMeta>
    requires Known(names, dirs)
  {
    if names == [] then []
    else
      var v := Judge(w, dirs[names[|names| - 1]]);
      RecoveredOf(w, dirs, names[..|names| - 1]) + (if v.Recovered? then [v.meta] else [])
  }

  ghost function LostOf(w: World, dirs: Dirs, names: seq<string>): seq<(string, Reason)>
    requires Known(names, dirs)
  {
    if names == [] then []
    else
      var v := Judge(w, dirs[names[|names| - 1]]);
      LostOf(w, dirs, names[..|names| - 1]) + (if v.Lost? then [(v.vmId, v.reason)] else [])
  }

  ghost function OrphansOf(w: World, dirs: Dirs, names: seq<string>): seq<string>
    requires Known(names, dirs)
  {
    if names == [] then []
    else
      var n := names[|names| - 1];
      OrphansOf(w, dirs, names[..|names| - 1]) + (if Judge(w, dirs[n]).Orphan? then [n] else [])
  }

  ghost function ContainersOf(w: World, dirs: Dirs, names: seq<string>): nat
    requires Known(names, dirs)
  {
    if names == [] then 0
    else
      ContainersOf(w, dirs, names[..|names| - 1])
      + (if Judge(w, dirs[names[|names| - 1]]).Container? then 1 else 0)
  }

  /** Names for which `keep` holds, in order. */
  function Select(names: seq<string>, keep: string -> bool): seq<string> {
    if names == [] then []
    else Select(names[..|names| - 1], keep) + (if keep(names[|names| - 1]) then [names[|names| - 1]] else [])
  }

  function IsBare(dirs: Dirs): string -> bool {
    n => n in dirs && dirs[n].Bare?
  }

  function HasMeta(dirs: Dirs): string -> bool {
    n => n in dirs && dirs[n].WithMeta?
  }

  /** The directories left when those orphans that can be removed are gone. */
  ghost function Cleaned(w: World, dirs: Dirs): Dirs {
    map n | n in dirs && !(Judge(w, dirs[n]).Orphan? && w.removable(n)) :: dirs[n]
  }

  class RuntimeBase {
    var dirs: Dirs

    constructor (dirs: Dirs)
      ensures this.dirs == dirs
    {
      this.dirs := dirs;
    }

    /** `scan_all_runtime_dirs` over a listing. */
    method ScanAll(names: seq<string>) returns (withMeta: seq<string>, without: seq<string>)
      requires Lists(names, dirs)
      ensures withMeta == Select(names, HasMeta(dirs)) && without == Select(names, IsBare(dirs))
    {
      withMeta, without := [], [];
      for i := 0 to |names|
        invariant withMeta == Select(names[..i], HasMeta(dirs))
        invariant without == Select(names[..i], IsBare(dirs))
      {
        assert names[..i + 1][..i] == names[..i];
        var content := dirs[names[i]];
        if !content.File? {
          if content.WithMeta? {
            withMeta := withMeta + [names[i]];
          } else {
            without := without + [names[i]];
          }
        }
      }
      assert names[..|names|] == names;
    }

    /** `cleanup_orphan`; the report names the directory whether or not the removal works. */
    method CleanupOrphan(w: World, name: string) returns (ok: bool)
      modifies this
      ensures ok == w.removable(name)
      ensures dirs == if ok then old(dirs) - {name} else old(dirs)
    {
      ok := w.removable(name);
      if ok {
        dirs := dirs - {name};
      }
    }

    /** The first loop of `reconnect`: directories without `meta.json`. */
    method CleanBare(w: World, without: seq<string>) returns (orphans: seq<string>)
      modifies this
      ensures orphans == without && Without(dirs, old(dirs), w, without)
    {
      ghost var dirs0 := dirs;
      orphans := [];
      for i := 0 to |without|
        invariant orphans == without[..i]
        invariant Without(dirs, dirs0, w, orphans)
      {
        var _ := CleanupOrphan(w, without[i]);
        WithoutOne(dirs, dirs0, w, orphans, without[i]);
        orphans := orphans + [without[i]];
      }
    }

    /** The second loop of `reconnect`: directories with `meta.json`. */
    method ReconnectWithMeta(w: World, withMeta: seq<string>)
      returns (recovered: seq<VmMeta>, failed: seq<(string, Reason)>, orphans: seq<string>)
      requires Known(withMeta, dirs) && Distinct(withMeta)
      requires forall n :: n in withMeta ==> dirs[n].WithMeta?
      modifies this
      ensures recovered == RecoveredOf(w, old(dirs), withMeta)
      ensures failed == LostOf(w, old(dirs), withMeta)
      ensures orphans == OrphansOf(w, old(dirs), withMeta)
      ensures Without(dirs, old(dirs), w, orphans)
    {
      hide RecoveredOf, LostOf, OrphansOf;
      ghost var dirs0 := dirs;
      recovered, failed, orphans := [], [], [];
      ReportEmpty(w, dirs0);
      assert withMeta[..0] == [];
      for i := 0 to |withMeta|
        invariant recovered == RecoveredOf(w, dirs0, withMeta[..i])
        invariant failed == LostOf(w, dirs0, withMeta[..i])
        invariant orphans == OrphansOf(w, dirs0, withMeta[..i])
        invariant Without(dirs, dirs0, w, orphans)
      {
        var name := withMeta[i];
        assert withMeta[..i + 1] == withMeta[..i] + [name];
        ReportLast(w, dirs0, withMeta[..i], name);
        OrphansAre(w, dirs0, withMeta[..i]);
        assert name in withMeta && name !in withMeta[..i];
        var content := dirs[name];
        if content.vm.None? {
          if !content.container {
            var _ := CleanupOrphan(w, name);
            WithoutOne(dirs, dirs0, w, orphans, name);
            orphans := orphans + [name];
          }
        } else {
          var meta := content.vm.value;
          if !w.alive(meta.pid) {
            failed := failed + [(meta.vmId, DeadPid)];
          } else if !w.ping(meta.socket) {
            failed := failed + [(meta.vmId, SilentSocket)];
          } else {
            recovered := recovered + [meta];
          }
        }
      }
      assert withMeta[..|withMeta|] == withMeta;
    }

    /** `reconnect`. */
    method Reconnect(w: World, names: seq<string>)
      returns (recovered: seq<VmMeta>, failed: seq<(string, Reason)>, orphans: seq<string>)
      requires Lists(names, dirs)
      modifies this
      ensures recovered == RecoveredOf(w, old(dirs), names)
      ensures failed == LostOf(w, old(dirs), names)
      ensures multiset(orphans) == multiset(OrphansOf(w, old(dirs), names))
      ensures dirs == Cleaned(w, old(dirs))
    {
      hide Select, RecoveredOf, LostOf, OrphansOf, Judge, Cleaned, Lists, Without;
      ghost var dirs0 := dirs;
      var withMeta, without := ScanAll(names);
      ListedParts(w, dirs0, names);
      var bare := CleanBare(w, without);
      ghost var dirs1 := dirs;
      UntouchedMeta(w, dirs1, dirs0, without, withMeta);
      recovered, failed, orphans := ReconnectWithMeta(w, withMeta);
      SameReport(w, dirs1, dirs0, withMeta);
      CleanedInTwo(w, dirs, dirs1, dirs0, without, orphans);
      orphans := bare + orphans;
    }
  }

  lemma UntouchedMeta(w: World, dirs1: Dirs, dirs0: Dirs, bare: seq<string>, metas: seq<string>)
    requires Without(dirs1, dirs0, w, bare) && Known(metas, dirs0)
    requires forall n :: n in bare ==> n in dirs0 && dirs0[n].Bare?
    requires forall n :: n in metas ==> dirs0[n].WithMeta?
    ensures Known(metas, dirs1) && forall n :: n in metas ==> dirs1[n] == dirs0[n]
  {
    assert forall i :: 0 <= i < |metas| ==> metas[i] in metas;
  }

  /** Removing bare orphans and then corrupt ones removes the orphans. */
  lemma CleanedInTwo(w: World, dirs: Dirs, dirs1: Dirs, dirs0: Dirs, bare: seq<string>, corrupt: seq<string>)
    requires Without(dirs1, dirs0, w, bare) && Without(dirs, dirs1, w, corrupt)
    requires forall n :: n in bare <==> n in dirs0 && dirs0[n].Bare?
    requires forall n :: n in corrupt <==> n in dirs0 && dirs0[n].WithMeta? && Judge(w, dirs0[n]).Orphan?
    ensures dirs == Cleaned(w, dirs0)
  {
    assert forall n :: n in dirs0 ==> (Judge(w, dirs0[n]).Orphan? <==> n in bare || n in corrupt);
  }

  ghost predicate Distinct(names: seq<string>) {
    forall i, j :: 0 <= i < j < |names| ==> names[i] != names[j]
  }

  /** The report on directories that have not changed is the same. */
  lemma {:induction false} SameReport(w: World, dirs: Dirs, dirs0: Dirs, names: seq<string>)
    requires Known(names, dirs) && Known(names, dirs0)
    requires forall n :: n in names ==> dirs[n] == dirs0[n]
    ensures RecoveredOf(w, dirs, names) == RecoveredOf(w, dirs0, names)
    ensures LostOf(w, dirs, names) == LostOf(w, dirs0, names)
    ensures OrphansOf(w, dirs, names) == OrphansOf(w, dirs0, names)
  {
    if names != [] {
      SameReport(w, dirs, dirs0, names[..|names| - 1]);
    }
  }

  /** What the two parts of a listing contribute to the report. */
  lemma ListedParts(w: World, dirs: Dirs, names: seq<string>)
    requires Lists(names, dirs)
    ensures var metas, bare := Select(names, HasMeta(dirs)), Select(names, IsBare(dirs));
            && Known(metas, dirs) && Distinct(metas)
            && (forall n :: n in metas <==> n in dirs && dirs[n].WithMeta?)
            && (forall n :: n in bare <==> n in dirs && dirs[n].Bare?)
            && (forall n :: n in OrphansOf(w, dirs, metas) <==> n in metas && Judge(w, dirs[n]).Orphan?)
            && RecoveredOf(w, dirs, metas) == RecoveredOf(w, dirs, names)
            && LostOf(w, dirs, metas) == LostOf(w, dirs, names)
            && multiset(bare) + multiset(OrphansOf(w, dirs, metas)) == multiset(OrphansOf(w, dirs, names))
  {
    SelectFacts(names, HasMeta(dirs));
    SelectFacts(names, IsBare(dirs));
    var metas := Select(names, HasMeta(dirs));
    assert forall i :: 0 <= i < |metas| ==> metas[i] in metas;
    OrphansAre(w, dirs, metas);
    SelectReport(w, dirs, names);
  }

  lemma SelectLast(dirs: Dirs, names: seq<string>)
    requires Known(names, dirs) && names != []
    ensures var init, last := names[..|names| - 1], names[|names| - 1];
            var metas, bare := Select(init, HasMeta(dirs)), Select(init, IsBare(dirs));
            && Select(names, HasMeta(dirs)) == (if dirs[last].WithMeta? then metas + [last] else metas)
            && Select(names, IsBare(dirs)) == (if dirs[last].Bare? then bare + [last] else bare)
  {
  }

  lemma ReportEmpty(w: World, dirs: Dirs)
    ensures RecoveredOf(w, dirs, []) == [] && LostOf(w, dirs, []) == [] && OrphansOf(w, dirs, []) == []
  {
  }

  lemma ReportLast(w: World, dirs: Dirs, names: seq<string>, last: string)
    requires Known(names, dirs) && last in dirs
    ensures Known(names + [last], dirs)
    ensures var all, v := names + [last], Judge(w, dirs[last]);
            var recovered, lost, orphans := RecoveredOf(w, dirs, names), LostOf(w, dirs, names), OrphansOf(w, dirs, names);
            && RecoveredOf(w, dirs, all) == (if v.Recovered? then recovered + [v.meta] else recovered)
            && LostOf(w, dirs, all) == (if v.Lost? then lost + [(v.vmId, v.reason)] else lost)
            && OrphansOf(w, dirs, all) == (if v.Orphan? then orphans + [last] else orphans)
  {
    assert (names + [last])[..|names|] == names;
  }

  /** The report on a listing, from the report on its directories with `meta.json`. */
  ghost predicate ReportFromMetas(w: World, dirs: Dirs, names: seq<string>, metas: seq<string>, bare: seq<string>)
    requires Known(names, dirs)
  {
    && Known(metas, dirs)
    && RecoveredOf(w, dirs, metas) == RecoveredOf(w, dirs, names)
    && LostOf(w, dirs, metas) == LostOf(w, dirs, names)
    && multiset(bare) + multiset(OrphansOf(w, dirs, metas)) == multiset(OrphansOf(w, dirs, names))
  }

  lemma ReportFromMetasLast(w: World, dirs: Dirs, names: seq<string>, metas: seq<string>, bare: seq<string>, last: string)
    requires Known(names, dirs) && last in dirs && ReportFromMetas(w, dirs, names, metas, bare)
    ensures Known(names + [last], dirs)
    ensures ReportFromMetas(w, dirs, names + [last], if dirs[last].WithMeta? then metas + [last] else metas,
                            if dirs[last].Bare? then bare + [last] else bare)
  {
    hide RecoveredOf, LostOf, OrphansOf;
    ReportLast(w, dirs, names, last);
    if dirs[last].WithMeta? {
      ReportLast(w, dirs, metas, last);
    }
  }

  lemma {:induction false} SelectReport(w: World, dirs: Dirs, names: seq<string>)
    requires Known(names, dirs)
    ensures ReportFromMetas(w, dirs, names, Select(names, HasMeta(dirs)), Select(names, IsBare(dirs)))
  {
    if names != [] {
      hide ReportFromMetas;
      var init, last := names[..|names| - 1], names[|names| - 1];
      SelectReport(w, dirs, init);
      SelectLast(dirs, names);
      assert names == init + [last];
      ReportFromMetasLast(w, dirs, init, Select(init, HasMeta(dirs)), Select(init, IsBare(dirs)), last);
    }
  }

  /** `dirs` is `dirs0` without those names of `gone` that can be removed. */
  ghost predicate Without(dirs: Dirs, dirs0: Dirs, w: World, gone: seq<string>) {
    && (forall n :: n in dirs <==> n in dirs0 && !(n in gone && w.removable(n)))
    && (forall n :: n in dirs ==> dirs[n] == dirs0[n])
  }

  lemma WithoutOne(dirs: Dirs, dirs0: Dirs, w: World, gone: seq<string>, name: string)
    requires forall n :: n in dirs <==> n in dirs0 && !(n in gone && w.removable(n)) && !(n == name && w.removable(n))
    requires forall n :: n in dirs ==> dirs[n] == dirs0[n]
    ensures Without(dirs, dirs0, w, gone + [name])
  {
    assert forall n :: n in gone + [name] <==> n in gone || n == name;
  }

  lemma {:induction false} SelectFacts(names: seq<string>, keep: string -> bool)
    requires Distinct(names)
    ensures forall n :: n in Select(names, keep) <==> n in names && keep(n)
    ensures Distinct(Select(names, keep))
  {
    if names != [] {
      var init, last := names[..|names| - 1], names[|names| - 1];
      SelectFacts(init, keep);
      assert names == init + [last];
      assert last !in Select(init, keep);
    }
  }

  lemma {:induction false} OrphansAre(w: World, dirs: Dirs, names: seq<string>)
    requires Known(names, dirs)
    ensures forall n :: n in OrphansOf(w, dirs, names) <==> n in names && Judge(w, dirs[n]).Orphan?
  {
    if names != [] {
      var init, last := names[..|names| - 1], names[|names| - 1];
      OrphansAre(w, dirs, init);
      assert names == init + [last];
    }
  }

  // ------------------------------------------------------------------
  // What the report means
  // ------------------------------------------------------------------

  ghost function DirectoriesIn(dirs: Dirs, names: seq<string>): nat
    requires Known(names, dirs)
  {
    if names == [] then 0
    else DirectoriesIn(dirs, names[..|names| - 1]) + (if dirs[names[|names| - 1]].File? then 0 else 1)
  }

  /** Every scanned directory is in exactly one part of the report, or is a skipped container. */
  lemma {:induction false} PartsAddUp(w: World, dirs: Dirs, names: seq<string>)
    requires Known(names, dirs)
    ensures |RecoveredOf(w, dirs, names)| + |LostOf(w, dirs, names)| + |OrphansOf(w, dirs, names)|
            + ContainersOf(w, dirs, names) == DirectoriesIn(dirs, names)
  {
    if names != [] {
      PartsAddUp(w, dirs, names[..|names| - 1]);
    }
  }

  /** Some listed directory is judged `v`. */
  ghost predicate Judged(w: World, dirs: Dirs, v: Verdict) {
    exists n :: n in dirs && Judge(w, dirs[n]) == v
  }

  ghost predicate JudgedIn(w: World, dirs: Dirs, names: seq<string>, v: Verdict)
    requires Known(names, dirs)
  {
    exists i :: 0 <= i < |names| && Judge(w, dirs[names[i]]) == v
  }

  lemma JudgedInLast(w: World, dirs: Dirs, names: seq<string>, v: Verdict)
    requires Known(names, dirs) && names != []
    ensures JudgedIn(w, dirs, names, v) <==>
            JudgedIn(w, dirs, names[..|names| - 1], v) || Judge(w, dirs[names[|names| - 1]]) == v
  {
  }

  lemma {:induction false} ReportMembers(w: World, dirs: Dirs, names: seq<string>, m: VmMeta, id: string, why: Reason)
    requires Known(names, dirs)
    ensures m in RecoveredOf(w, dirs, names) <==> JudgedIn(w, dirs, names, Recovered(m))
    ensures (id, why) in LostOf(w, dirs, names) <==> JudgedIn(w, dirs, names, Lost(id, why))
  {
    if names != [] {
      ReportMembers(w, dirs, names[..|names| - 1], m, id, why);
      JudgedInLast(w, dirs, names, Recovered(m));
      JudgedInLast(w, dirs, names, Lost(id, why));
    }
  }

  lemma JudgedListed(w: World, dirs: Dirs, names: seq<string>, v: Verdict)
    requires Lists(names, dirs)
    ensures JudgedIn(w, dirs, names, v) <==> Judged(w, dirs, v)
  {
  }

  /** A VM is reported recovered exactly when some directory names it, its process lives and its socket answers. */
  lemma RecoveredMeans(w: World, dirs: Dirs, names: seq<string>, m: VmMeta)
    requires Lists(names, dirs)
    ensures m in RecoveredOf(w, dirs, names) <==>
            exists n :: n in dirs && dirs[n].WithMeta? && dirs[n].vm == Some(m) && w.alive(m.pid) && w.ping(m.socket)
  {
    ReportMembers(w, dirs, names, m, "", DeadPid);
    JudgedListed(w, dirs, names, Recovered(m));
  }

  /** A VM is reported lost exactly for a directory that names it, by which of the two answers is missing. */
  lemma LostMeans(w: World, dirs: Dirs, names: seq<string>, id: string, why: Reason)
    requires Lists(names, dirs)
    ensures (id, why) in LostOf(w, dirs, names) <==>
            exists n :: n in dirs && dirs[n].WithMeta? && dirs[n].vm.Some? && dirs[n].vm.value.vmId == id
                        && (if why.DeadPid? then !w.alive(dirs[n].vm.value.pid)
                            else w.alive(dirs[n].vm.value.pid) && !w.ping(dirs[n].vm.value.socket))
  {
    ReportMembers(w, dirs, names, VmMeta("", 0, ""), id, why);
    JudgedListed(w, dirs, names, Lost(id, why));
  }

  /** Only directories whose metadata is missing, or unreadable and not a container's, are orphans. */
  lemma OrphansMean(w: World, dirs: Dirs, names: seq<string>, n: string)
    requires Lists(names, dirs)
    ensures n in OrphansOf(w, dirs, names) <==>
            n in dirs && (dirs[n].Bare? || (dirs[n].WithMeta? && dirs[n].vm.None? && !dirs[n].container))
  {
    OrphansAre(w, dirs, names);
  }

  /**
   A second run in the same world reports the same VMs, in whatever order the
   directories are listed, and finds no orphan exactly when every orphan could
   be removed.
   */
  lemma SecondRun(w: World, dirs: Dirs, names: seq<string>, again: seq<string>)
    requires Lists(names, dirs) && Lists(again, Cleaned(w, dirs))
    ensures forall m :: m in RecoveredOf(w, Cleaned(w, dirs), again) <==> m in RecoveredOf(w, dirs, names)
    ensures forall f :: f in LostOf(w, Cleaned(w, dirs), again) <==> f in LostOf(w, dirs, names)
    ensures OrphansOf(w, Cleaned(w, dirs), again) == [] <==>
            forall n :: n in dirs && Judge(w, dirs[n]).Orphan? ==> w.removable(n)
  {
    var clean := Cleaned(w, dirs);
    forall v: Verdict | !v.Orphan?
      ensures Judged(w, clean, v) <==> Judged(w, dirs, v)
    {
      SameJudged(w, dirs, v);
    }
    forall m
      ensures m in RecoveredOf(w, clean, again) <==> m in RecoveredOf(w, dirs, names)
    {
      ReportMembers(w, dirs, names, m, "", DeadPid);
      ReportMembers(w, clean, again, m, "", DeadPid);
      JudgedListed(w, dirs, names, Recovered(m));
      JudgedListed(w, clean, again, Recovered(m));
    }
    forall f: (string, Reason)
      ensures f in LostOf(w, clean, again) <==> f in LostOf(w, dirs, names)
    {
      var m := VmMeta("", 0, "");
      ReportMembers(w, dirs, names, m, f.0, f.1);
      ReportMembers(w, clean, again, m, f.0, f.1);
      JudgedListed(w, dirs, names, Lost(f.0, f.1));
      JudgedListed(w, clean, again, Lost(f.0, f.1));
    }
    OrphansLeft(w, dirs, again);
  }

  lemma SameJudged(w: World, dirs: Dirs, v: Verdict)
    requires !v.Orphan?
    ensures Judged(w, Cleaned(w, dirs), v) <==> Judged(w, dirs, v)
  {
    if Judged(w, dirs, v) {
      var n :| n in dirs && Judge(w, dirs[n]) == v;
      assert n in Cleaned(w, dirs);
    }
  }

  lemma OrphansLeft(w: World, dirs: Dirs, again: seq<string>)
    requires Lists(again, Cleaned(w, dirs))
    ensures OrphansOf(w, Cleaned(w, dirs), again) == [] <==>
            forall n :: n in dirs && Judge(w, dirs[n]).Orphan? ==> w.removable(n)
  {
    var clean := Cleaned(w, dirs);
    var left := OrphansOf(w, clean, again);
    OrphansAre(w, clean, again);
    if left != [] {
      assert left[0] in left;
    }
    assert forall n :: n in dirs && Judge(w, dirs[n]).Orphan? && !w.removable(n) ==> n in clean && n in left;
  }
}
