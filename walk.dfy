/**
 * The meaning of a scan, as values. The traversal of the registered loaders yields a
 * sequence of events: an entry visited under a root, a diagnostic message, or an exception
 * that ends the scan. Running the events from a state gives the visited paths, the messages,
 * the resources handed to the handler, and whether the scan was cut short.
 */
module Walk {
  import opened Wrappers
  import opened Names
  import opened Filter
  import opened Loaders

  /** What the handler receives for an accepted entry. */
  datatype Resource = Resource(loader: Loader, path: string, resourceName: string, isClassResource: bool)

  datatype Event =
    | Visited(loader: Loader, path: string, rawName: string)
    | Note(message: string)
    | Abort

  /**
   * What a scan depends on besides the traversal: the filter configuration, whether a handler
   * was given, and the class-loading oracle that answers for a loader and a class name.
   */
  datatype Ctx = Ctx(cfg: FilterConfig, hasHandler: bool, load: (Loader, string) -> LoadResult)

  datatype Trace = Trace(paths: seq<string>, messages: seq<string>, handled: seq<Resource>, aborted: bool)

  /** The state right after the lists have been cleared. */
  const Start := Trace([], [], [], false)

  /** The candidate scanByPath builds for a visited entry: its loader, path, resource name and kind. */
  function Candidate(l: Loader, path: string, raw: string): Resource {
    Resource(l, path, ResourceName(raw), IsClassResource(raw))
  }

  /**
   * One entry through scanByPath: the path is recorded first; without a handler nothing
   * else happens; otherwise the filters decide whether the handler gets the candidate and
   * whether a load failure is reported (see VisitOutcome).
   */
  function Visit(ctx: Ctx, t: Trace, l: Loader, path: string, raw: string): (r: Trace)
    ensures r.paths == t.paths + [path] && r.aborted == t.aborted
    ensures !ctx.hasHandler ==> r.handled == t.handled && r.messages == t.messages
  {
    var t1 := t.(paths := t.paths + [path]);
    if !ctx.hasHandler then t1
    else
      var r := Candidate(l, path, raw);
      match Decide(ctx.cfg, r.resourceName, r.isClassResource, ctx.load(l, r.resourceName))
      case Accept => t1.(handled := t1.handled + [r])
      case Reject => t1
      case RejectWith(m) => t1.(messages := t1.messages + [m])
  }

  /**
   * The candidate reaches the handler exactly when a handler is given and the candidate
   * passes every filter; a message is added only with a handler, and only for a class that
   * failed to load.
   */
  lemma VisitOutcome(ctx: Ctx, t: Trace, l: Loader, path: string, raw: string)
    ensures var r := Visit(ctx, t, l, path, raw);
      var name := ResourceName(raw);
      r.handled == t.handled +
        (if ctx.hasHandler && Admits(ctx.cfg, name, IsClassResource(raw), ctx.load(l, name))
         then [Candidate(l, path, raw)] else [])
    ensures var r := Visit(ctx, t, l, path, raw);
      r.messages != t.messages ==>
        ctx.hasHandler && |r.messages| == |t.messages| + 1 && r.messages[..|t.messages|] == t.messages &&
        IsLoadFailure(r.messages[|t.messages|])
  {
    var r := Visit(ctx, t, l, path, raw);
    if r.messages != t.messages {
      var m := r.messages[|t.messages|];
      var name := ResourceName(raw);
      var loaded := ctx.load(l, name);
      var p := if ctx.cfg.typeAnnotation.Some? then "failed to load class: " else "failed to scan methods at class ";
      assert m[..|p|] == p;
    }
  }

  function Step(ctx: Ctx, t: Trace, e: Event): Trace {
    if t.aborted then t
    else match e
      case Visited(l, p, raw) => Visit(ctx, t, l, p, raw)
      case Note(m) => t.(messages := t.messages + [m])
      case Abort => t.(aborted := true)
  }

  function Run(ctx: Ctx, t: Trace, es: seq<Event>): Trace
    decreases |es|
  {
    if es == [] then t else Run(ctx, Step(ctx, t, es[0]), es[1..])
  }

  // ---------------------------------------------------------------------------------------
  // The traversal (scan, scanByClassLoader, scanByJar, scanByDirectory).

  /** Entries of an opened archive, each visited once, in order, named by its path without the leading '/'. */
  function JarEvents(l: Loader, entries: seq<ArchivePath>): (es: seq<Event>)
    ensures |es| == |entries|
    ensures forall i :: 0 <= i < |es| ==>
      es[i].Visited? && es[i].loader == l && es[i].path == entries[i] && entries[i] == "/" + es[i].rawName
  {
    if entries == [] then []
    else [Visited(l, entries[0], ArchiveEntryName(entries[0]))] + JarEvents(l, entries[1..])
  }

  /** The file's canonical path exists and is long enough for the substring scanByDirectory takes. */
  predicate Canonicalises(rootLen: nat, f: DirFile) {
    f.canonicalPath.Some? && |f.canonicalPath.value| >= rootLen + 1
  }

  /**
   * A file under a directory root whose canonical path has rootLen characters. A failing
   * canonicalisation or a canonical path too short for the substring throws out of the scan.
   */
  function FileEvent(l: Loader, rootLen: nat, f: DirFile): (e: Event)
    ensures e.Abort? <==> !Canonicalises(rootLen, f)
    ensures e.Visited? ==>
      e.loader == l && e.path == f.path &&
      f.canonicalPath.value == f.canonicalPath.value[..rootLen + 1] + e.rawName
    ensures !e.Note?
  {
    match f.canonicalPath
    case None => Abort
    case Some(c) =>
      match DirectoryEntryName(rootLen, c)
      case None => Abort
      case Some(raw) => Visited(l, f.path, raw)
  }

  /** The files of a directory root, one event per file, in walk order; a walk adds no message. */
  function DirEvents(l: Loader, rootLen: nat, files: seq<DirFile>): (es: seq<Event>)
    ensures |es| == |files|
    ensures forall i :: 0 <= i < |es| ==>
      !es[i].Note? && (es[i].Visited? ==> es[i].loader == l && es[i].path == files[i].path)
  {
    if files == [] then [] else [FileEvent(l, rootLen, files[0])] + DirEvents(l, rootLen, files[1..])
  }

  /**
   * A directory root: failing to canonicalise the root itself throws out of the scan before
   * any file is visited. A directory adds no message.
   */
  function DirectoryEvents(l: Loader, root: Option<string>, files: seq<DirFile>): (es: seq<Event>)
    ensures root.None? ==> es != [] && forall i :: 0 <= i < |es| ==> es[i].Abort?
    ensures root.Some? ==> |es| == |files|
    ensures forall i :: 0 <= i < |es| ==> !es[i].Note? && (es[i].Visited? ==> es[i].loader == l)
  {
    match root
    case None => [Abort]
    case Some(r) => DirEvents(l, |r|, files)
  }

  /**
   * A ".jar" root: its entries if it opens, otherwise the one "failed scanning jar" message.
   * An archive never throws out of the scan.
   */
  function ArchiveEvents(l: Loader, file: string, archive: Archive): (es: seq<Event>)
    ensures NoAbort(es)
    ensures archive.Opened? ==> forall i :: 0 <= i < |es| ==> es[i].Visited? && es[i].loader == l
    ensures archive.OpenFailed? ==>
      |es| == 1 && es[0].Note? && StartsWith(es[0].message, "failed scanning jar: " + file)
  {
    match archive
    case Opened(entries) => JarEvents(l, entries)
    case OpenFailed(e) => [Note("failed scanning jar: " + file + ": " + e)]
  }

  /**
   * One URL of a loader, dispatched on what the file system shows at its file. An empty file
   * part yields nothing; a message is the only event of its URL; only a directory throws.
   */
  function UrlEvents(l: Loader, u: Url, fs: string -> FileNode): (es: seq<Event>)
    ensures u.file == [] ==> es == []
    ensures forall i :: 0 <= i < |es| ==>
      && (es[i].Visited? ==> es[i].loader == l)
      && (es[i].Note? ==> |es| == 1)
      && (es[i].Abort? ==> fs(u.file).Directory?)
  {
    if u.file == [] then []
    else match fs(u.file)
      case Directory(root, files) => DirectoryEvents(l, root, files)
      case RegularFile(name, archive) =>
        if EndsWith(Lower(name), JarSuffix) then ArchiveEvents(l, u.file, archive)
        else [Note("not found: " + u.text)]
      case Nonexistent => [Note("not found: " + u.text)]
  }

  /** The URLs of one loader, in order; every entry visited belongs to that loader. */
  function UrlsEvents(l: Loader, urls: seq<Url>, fs: string -> FileNode): (es: seq<Event>)
    ensures forall i :: 0 <= i < |es| ==> es[i].Visited? ==> es[i].loader == l
  {
    if urls == [] then [] else UrlEvents(l, urls[0], fs) + UrlsEvents(l, urls[1..], fs)
  }

  /** One registered loader: its URLs if it is a URL class loader, otherwise one message and nothing else. */
  function LoaderEvents(l: Loader, fs: string -> FileNode): (es: seq<Event>)
    ensures forall i :: 0 <= i < |es| ==> es[i].Visited? ==> es[i].loader == l
    ensures l.kind.OtherLoader? ==> |es| == 1 && es[0].Note?
  {
    match l.kind
    case UrlLoader(urls) => UrlsEvents(l, urls, fs)
    case OtherLoader(d) => [Note("unsupported ClassLaoder: " + d)]
  }

  /** The registered loaders, in order; every entry visited belongs to one of them. */
  function WalkEvents(ls: seq<Loader>, fs: string -> FileNode): (es: seq<Event>)
    ensures forall i :: 0 <= i < |es| ==> es[i].Visited? ==> es[i].loader in ls
  {
    if ls == [] then [] else LoaderEvents(ls[0], fs) + WalkEvents(ls[1..], fs)
  }

  /** The outcome of a whole scan over the loaders ls. */
  function ScanResult(ctx: Ctx, ls: seq<Loader>, fs: string -> FileNode): Trace {
    Run(ctx, Start, WalkEvents(ls, fs))
  }

  // ---------------------------------------------------------------------------------------
  // Properties of Run.

  /** Running two event sequences one after the other is running their concatenation. */
  lemma {:induction false} RunAppend(ctx: Ctx, t: Trace, a: seq<Event>, b: seq<Event>)
    ensures Run(ctx, t, a + b) == Run(ctx, Run(ctx, t, a), b)
    decreases |a|
  {
    if a == [] {
      assert a + b == b;
    } else {
      assert (a + b)[0] == a[0] && (a + b)[1..] == a[1..] + b;
      RunAppend(ctx, Step(ctx, t, a[0]), a[1..], b);
    }
  }

  /** Once the scan has been cut short, nothing more happens. */
  lemma {:induction false} RunStopped(ctx: Ctx, t: Trace, es: seq<Event>)
    requires t.aborted
    ensures Run(ctx, t, es) == t
    decreases |es|
  {
    if es != [] {
      RunStopped(ctx, Step(ctx, t, es[0]), es[1..]);
    }
  }

  /** A state that extends another by d: its lists continue t's lists with d's. */
  function Extend(t: Trace, d: Trace): Trace {
    Trace(t.paths + d.paths, t.messages + d.messages, t.handled + d.handled, d.aborted)
  }

  /** What a run adds does not depend on what was recorded before it. */
  lemma {:induction false} RunExtend(ctx: Ctx, t: Trace, d: Trace, es: seq<Event>)
    requires !t.aborted
    ensures Run(ctx, Extend(t, d), es) == Extend(t, Run(ctx, d, es))
    decreases |es|
  {
    if es != [] {
      var e := es[0];
      assert Step(ctx, Extend(t, d), e) == Extend(t, Step(ctx, d, e)) by {
        if !d.aborted && e.Visited? {
          var r := Candidate(e.loader, e.path, e.rawName);
          assert t.paths + (d.paths + [e.path]) == t.paths + d.paths + [e.path];
          match Decide(ctx.cfg, r.resourceName, r.isClassResource, ctx.load(e.loader, r.resourceName))
          case Accept =>
            assert t.handled + d.handled + [r] == t.handled + (d.handled + [r]);
          case Reject =>
          case RejectWith(m) =>
            assert t.messages + d.messages + [m] == t.messages + (d.messages + [m]);
        } else if !d.aborted && e.Note? {
          assert t.messages + d.messages + [e.message] == t.messages + (d.messages + [e.message]);
        }
      }
      RunExtend(ctx, t, Step(ctx, d, e), es[1..]);
    }
  }

  /** Running from any state that is not cut short: that state extended by a run from Start. */
  lemma RunFromState(ctx: Ctx, t: Trace, es: seq<Event>)
    requires !t.aborted
    ensures Run(ctx, t, es) == Extend(t, Run(ctx, Start, es))
  {
    assert Extend(t, Start) == t;
    RunExtend(ctx, t, Start, es);
  }

  /** The paths of the visited entries of an event sequence. */
  function VisitedPaths(es: seq<Event>): seq<string> {
    if es == [] then []
    else (if es[0].Visited? then [es[0].path] else []) + VisitedPaths(es[1..])
  }

  predicate NoAbort(es: seq<Event>) {
    forall i :: 0 <= i < |es| ==> !es[i].Abort?
  }

  /**
   * Every visited entry adds exactly one path, before and whatever the filters decide; a run
   * without an exception records exactly the visited paths.
   */
  lemma {:induction false} RunPaths(ctx: Ctx, t: Trace, es: seq<Event>)
    requires !t.aborted && NoAbort(es)
    ensures Run(ctx, t, es).paths == t.paths + VisitedPaths(es)
    ensures !Run(ctx, t, es).aborted
    decreases |es|
  {
    if es != [] {
      var s := Step(ctx, t, es[0]);
      NoAbortTail(es);
      StepPaths(ctx, t, es[0]);
      RunPaths(ctx, s, es[1..]);
      var own := if es[0].Visited? then [es[0].path] else [];
      assert VisitedPaths(es) == own + VisitedPaths(es[1..]);
      assert t.paths + (own + VisitedPaths(es[1..])) == (t.paths + own) + VisitedPaths(es[1..]);
    }
  }

  lemma NoAbortTail(es: seq<Event>)
    requires es != [] && NoAbort(es)
    ensures !es[0].Abort? && NoAbort(es[1..])
  {
    forall i | 0 <= i < |es[1..]| ensures !es[1..][i].Abort? {
      assert es[1..][i] == es[i + 1];
    }
  }

  /** One event that is not an exception adds at most its own path and raises nothing. */
  lemma StepPaths(ctx: Ctx, t: Trace, e: Event)
    requires !t.aborted && !e.Abort?
    ensures Step(ctx, t, e).paths == t.paths + (if e.Visited? then [e.path] else [])
    ensures !Step(ctx, t, e).aborted
  {
  }

  /** The recorded paths and the abort do not depend on the filters, the handler or the class loading. */
  lemma {:induction false} PathsIgnoreFilters(ctx1: Ctx, ctx2: Ctx, t: Trace, es: seq<Event>)
    ensures Run(ctx1, t, es).paths == Run(ctx2, t, es).paths
    ensures Run(ctx1, t, es).aborted == Run(ctx2, t, es).aborted
    decreases |es|
  {
    if es != [] {
      var t1, t2 := Step(ctx1, t, es[0]), Step(ctx2, t, es[0]);
      assert t1.paths == t2.paths && t1.aborted == t2.aborted;
      PathsIgnoreFilters(ctx1, ctx2, t1, es[1..]);
      PathsIgnoreFilters(ctx1, ctx2, t1.(messages := t2.messages, handled := t2.handled), es[1..]);
      PathsAgree(ctx2, t1, t2, es[1..]);
    }
  }

  /** Two states with the same paths and abort flag keep agreeing on them. */
  lemma {:induction false} PathsAgree(ctx: Ctx, t1: Trace, t2: Trace, es: seq<Event>)
    requires t1.paths == t2.paths && t1.aborted == t2.aborted
    ensures Run(ctx, t1, es).paths == Run(ctx, t2, es).paths
    ensures Run(ctx, t1, es).aborted == Run(ctx, t2, es).aborted
    decreases |es|
  {
    if es != [] {
      PathsAgree(ctx, Step(ctx, t1, es[0]), Step(ctx, t2, es[0]), es[1..]);
    }
  }

  /** A run only ever appends to the three lists. */
  lemma {:induction false} RunGrows(ctx: Ctx, t: Trace, es: seq<Event>)
    ensures var r := Run(ctx, t, es);
      && |t.paths| <= |r.paths| && r.paths[..|t.paths|] == t.paths
      && |t.messages| <= |r.messages| && r.messages[..|t.messages|] == t.messages
      && |t.handled| <= |r.handled| && r.handled[..|t.handled|] == t.handled
    decreases |es|
  {
    if es != [] {
      var s := Step(ctx, t, es[0]);
      RunGrows(ctx, s, es[1..]);
      var r := Run(ctx, t, es);
      assert r.paths[..|s.paths|][..|t.paths|] == r.paths[..|t.paths|];
      assert r.messages[..|s.messages|][..|t.messages|] == r.messages[..|t.messages|];
      assert r.handled[..|s.handled|][..|t.handled|] == r.handled[..|t.handled|];
    }
  }

  /** What the handler receives passed every configured filter, including the loaded-class checks. */
  predicate Admitted(ctx: Ctx, r: Resource) {
    Admits(ctx.cfg, r.resourceName, r.isClassResource, ctx.load(r.loader, r.resourceName))
  }

  /** A class resource's name has no '/' and no '\'. */
  predicate DottedIfClass(r: Resource) {
    r.isClassResource ==> forall i :: 0 <= i < |r.resourceName| ==> !IsSeparator(r.resourceName[i])
  }

  /**
   * Every resource handed to the handler during a run was admitted by the filters, has a
   * dotted name if it is a class, and comes from a path recorded during the same run.
   */
  lemma {:induction false} HandledAreAdmitted(ctx: Ctx, t: Trace, es: seq<Event>)
    ensures var r := Run(ctx, t, es); |r.handled| > |t.handled| ==> ctx.hasHandler
    ensures var r := Run(ctx, t, es);
      forall k :: |t.handled| <= k < |r.handled| ==>
        Admitted(ctx, r.handled[k]) && DottedIfClass(r.handled[k]) &&
        exists j :: |t.paths| <= j < |r.paths| && r.paths[j] == r.handled[k].path
    decreases |es|
  {
    if es != [] {
      var s := Step(ctx, t, es[0]);
      HandledAreAdmitted(ctx, s, es[1..]);
      RunGrows(ctx, s, es[1..]);
      var r := Run(ctx, t, es);
      assert r == Run(ctx, s, es[1..]);
      assert |t.paths| <= |s.paths|;
      forall k | |t.handled| <= k < |r.handled|
        ensures Admitted(ctx, r.handled[k]) && DottedIfClass(r.handled[k])
        ensures exists j :: |t.paths| <= j < |r.paths| && r.paths[j] == r.handled[k].path
      {
        if k < |s.handled| {
          var e := es[0];
          assert !t.aborted && e.Visited?;
          var c := Candidate(e.loader, e.path, e.rawName);
          assert Decide(ctx.cfg, c.resourceName, c.isClassResource, ctx.load(e.loader, c.resourceName)) == Accept;
          assert s.handled == t.handled + [c] && s.paths == t.paths + [e.path];
          assert r.handled[k] == r.handled[..|s.handled|][k] == c;
          var j := |s.paths| - 1;
          assert r.paths[j] == r.paths[..|s.paths|][j] == e.path;
          assert Admitted(ctx, c) && DottedIfClass(c);
        } else {
          assert r.handled[k] == Run(ctx, s, es[1..]).handled[k];
        }
      }
    }
  }

  /**
   * Without a handler nothing is dispatched and no class is loaded: the only messages are
   * those of the traversal itself.
   */
  lemma {:induction false} NoHandlerNoDispatch(ctx: Ctx, t: Trace, es: seq<Event>)
    requires !ctx.hasHandler
    ensures var r := Run(ctx, t, es);
      r.handled == t.handled &&
      |t.messages| <= |r.messages| &&
      forall k :: |t.messages| <= k < |r.messages| ==> Note(r.messages[k]) in es
    decreases |es|
  {
    if es != [] {
      var s := Step(ctx, t, es[0]);
      NoHandlerNoDispatch(ctx, s, es[1..]);
      RunGrows(ctx, s, es[1..]);
      var r := Run(ctx, t, es);
      forall k | |t.messages| <= k < |r.messages| ensures Note(r.messages[k]) in es {
        if k < |s.messages| {
          assert r.messages[k] == r.messages[..|s.messages|][k] == s.messages[k];
          assert es[0] == Note(s.messages[k]);
        } else {
          assert Note(r.messages[k]) in es[1..];
        }
      }
    }
  }

  /** The two messages a filter can record: a class that failed to load for either annotation check. */
  predicate IsLoadFailure(m: string) {
    StartsWith(m, "failed to load class: ") || StartsWith(m, "failed to scan methods at class ")
  }

  /**
   * Every message recorded during a run is either one of the traversal's own messages or,
   * with a handler, a failed class load reported by the annotation filters.
   */
  lemma {:induction false} MessagesAreExplained(ctx: Ctx, t: Trace, es: seq<Event>)
    ensures var r := Run(ctx, t, es);
      |t.messages| <= |r.messages| &&
      forall k :: |t.messages| <= k < |r.messages| ==>
        Note(r.messages[k]) in es || (ctx.hasHandler && IsLoadFailure(r.messages[k]))
    decreases |es|
  {
    if es != [] {
      var s := Step(ctx, t, es[0]);
      MessagesAreExplained(ctx, s, es[1..]);
      RunGrows(ctx, s, es[1..]);
      var r := Run(ctx, t, es);
      forall k | |t.messages| <= k < |r.messages|
        ensures Note(r.messages[k]) in es || (ctx.hasHandler && IsLoadFailure(r.messages[k]))
      {
        if k < |s.messages| {
          var m := s.messages[k];
          assert r.messages[k] == r.messages[..|s.messages|][k] == m;
          if !es[0].Note? {
            var e := es[0];
            var c := Candidate(e.loader, e.path, e.rawName);
            var v := Decide(ctx.cfg, c.resourceName, c.isClassResource, ctx.load(e.loader, c.resourceName));
            assert ctx.hasHandler && v.RejectWith? && m == v.message;
            var loaded := ctx.load(e.loader, c.resourceName);
            if ctx.cfg.typeAnnotation.Some? {
              var p := "failed to load class: ";
              assert m == p + loaded.error;
              assert m[..|p|] == p;
            } else {
              var p := "failed to scan methods at class ";
              assert m == p + c.resourceName + " : " + loaded.error;
              assert m[..|p|] == p;
            }
          }
        } else {
          assert Note(r.messages[k]) in es[1..] || (ctx.hasHandler && IsLoadFailure(r.messages[k]));
        }
      }
    }
  }

  /**
   * With a handler, a class that passes the name and kind filters but cannot be loaded for an
   * annotation check is not handed over; the run records its path and exactly the message of
   * the check that failed: the type-annotation check when one is set, else the method scan.
   */
  lemma VisitReportsLoadFailure(ctx: Ctx, t: Trace, l: Loader, path: string, raw: string)
    requires !t.aborted && ctx.hasHandler && IsClassResource(raw)
    requires PassesNameFilters(ctx.cfg, ResourceName(raw), true)
    requires ctx.load(l, ResourceName(raw)).LoadFailed?
    requires ctx.cfg.typeAnnotation.Some? || ctx.cfg.methodAnnotation.Some?
    ensures var name := ResourceName(raw);
      var error := ctx.load(l, name).error;
      Run(ctx, t, [Visited(l, path, raw)]) ==
        t.(paths := t.paths + [path],
           messages := t.messages +
             [if ctx.cfg.typeAnnotation.Some? then "failed to load class: " + error
              else "failed to scan methods at class " + name + " : " + error])
  {
    assert [Visited(l, path, raw)][1..] == [];
  }

  /**
   * With a handler and no filter configured, every visited entry is handed to the handler,
   * in the order of the recorded paths.
   */
  lemma {:induction false} UnfilteredHandlesEveryPath(ctx: Ctx, t: Trace, es: seq<Event>)
    requires ctx.hasHandler && ctx.cfg == NoFilters
    requires |t.handled| == |t.paths| && forall k :: 0 <= k < |t.paths| ==> t.handled[k].path == t.paths[k]
    ensures var r := Run(ctx, t, es);
      |r.handled| == |r.paths| && forall k :: 0 <= k < |r.paths| ==> r.handled[k].path == r.paths[k]
    decreases |es|
  {
    if es != [] {
      var s := Step(ctx, t, es[0]);
      if !t.aborted && es[0].Visited? {
        var e := es[0];
        var c := Candidate(e.loader, e.path, e.rawName);
        NoFiltersAcceptAll(c.resourceName, c.isClassResource, ctx.load(e.loader, c.resourceName));
        assert s.handled == t.handled + [c] && s.paths == t.paths + [e.path];
      }
      UnfilteredHandlesEveryPath(ctx, s, es[1..]);
    }
  }

  // ---------------------------------------------------------------------------------------
  // Properties of the traversal and of whole scans.

  /** An opened archive contributes one visited entry per archive entry, in order, and no exception. */
  lemma {:induction false} JarEventsVisitAll(l: Loader, entries: seq<ArchivePath>)
    ensures VisitedPaths(JarEvents(l, entries)) == entries
    ensures NoAbort(JarEvents(l, entries))
  {
    if entries != [] {
      JarEventsVisitAll(l, entries[1..]);
    }
  }

  lemma NoAbortCons(e: Event, es: seq<Event>)
    ensures NoAbort([e] + es) <==> !e.Abort? && NoAbort(es)
  {
    if !e.Abort? && NoAbort(es) {
      forall i | 0 <= i < |[e] + es| ensures !([e] + es)[i].Abort? {
        if i > 0 { assert ([e] + es)[i] == es[i - 1]; }
      }
    }
    if NoAbort([e] + es) {
      assert ([e] + es)[0] == e;
      forall i | 0 <= i < |es| ensures !es[i].Abort? {
        assert 0 <= i + 1 < |[e] + es|;
        assert ([e] + es)[i + 1] == es[i];
      }
    }
  }

  /** A directory walk throws exactly when some file's canonical path cannot be obtained or is too short. */
  lemma {:induction false} DirEventsAbort(l: Loader, rootLen: nat, files: seq<DirFile>)
    ensures NoAbort(DirEvents(l, rootLen, files)) <==>
      forall i :: 0 <= i < |files| ==> Canonicalises(rootLen, files[i])
  {
    if files != [] {
      DirEventsAbort(l, rootLen, files[1..]);
      NoAbortCons(FileEvent(l, rootLen, files[0]), DirEvents(l, rootLen, files[1..]));
      assert forall i :: 0 < i < |files| ==> files[i] == files[1..][i - 1];
      if forall i :: 0 <= i < |files[1..]| ==> Canonicalises(rootLen, files[1..][i]) {
        assert forall i :: 1 <= i < |files| ==> Canonicalises(rootLen, files[i]);
      }
    }
  }

  /** Every resource a scan hands to the handler passed the configured filters. */
  lemma ScanHandlesOnlyAdmitted(ctx: Ctx, ls: seq<Loader>, fs: string -> FileNode)
    ensures var r := ScanResult(ctx, ls, fs);
      forall k :: 0 <= k < |r.handled| ==> Admitted(ctx, r.handled[k]) && DottedIfClass(r.handled[k])
  {
    var es := WalkEvents(ls, fs);
    HandledAreAdmitted(ctx, Start, es);
    forall k | 0 <= k < |ScanResult(ctx, ls, fs).handled|
      ensures Admitted(ctx, ScanResult(ctx, ls, fs).handled[k])
    {
      assert Admitted(ctx, Run(ctx, Start, es).handled[k]);
    }
  }

  /** Class-only hands over only classes; resource-only hands over only non-classes. */
  lemma ScanRespectsKindFilters(ctx: Ctx, ls: seq<Loader>, fs: string -> FileNode)
    ensures var r := ScanResult(ctx, ls, fs);
      && (ctx.cfg.onlyClasses ==> forall k :: 0 <= k < |r.handled| ==> r.handled[k].isClassResource)
      && (ctx.cfg.onlyResources ==> forall k :: 0 <= k < |r.handled| ==> !r.handled[k].isClassResource)
      && (ctx.cfg.excludeInnerClasses ==> forall k :: 0 <= k < |r.handled| ==>
            !(r.handled[k].isClassResource && InnerMarker in r.handled[k].resourceName))
  {
    ScanHandlesOnlyAdmitted(ctx, ls, fs);
  }

  /** The number of visited entries never falls below the number of handled resources. */
  lemma ScanHandlesAtMostVisited(ctx: Ctx, ls: seq<Loader>, fs: string -> FileNode)
    ensures |ScanResult(ctx, ls, fs).handled| <= |ScanResult(ctx, ls, fs).paths|
  {
    var es := WalkEvents(ls, fs);
    var ctx0 := ctx.(hasHandler := true, cfg := NoFilters);
    UnfilteredHandlesEveryPath(ctx0, Start, es);
    PathsIgnoreFilters(ctx, ctx0, Start, es);
    HandledAtMostUnfiltered(ctx, ctx0, Start, Start, es);
  }

  /** Filtering never hands over more than the unfiltered run from a state that has handled as much. */
  lemma {:induction false} HandledAtMostUnfiltered(ctx: Ctx, ctx0: Ctx, t: Trace, t0: Trace, es: seq<Event>)
    requires ctx0.hasHandler && ctx0.cfg == NoFilters
    requires |t.handled| <= |t0.handled| && t.aborted == t0.aborted
    ensures |Run(ctx, t, es).handled| <= |Run(ctx0, t0, es).handled|
    decreases |es|
  {
    if es != [] {
      var e := es[0];
      if !t.aborted && e.Visited? {
        var c := Candidate(e.loader, e.path, e.rawName);
        NoFiltersAcceptAll(c.resourceName, c.isClassResource, ctx0.load(e.loader, c.resourceName));
      }
      HandledAtMostUnfiltered(ctx, ctx0, Step(ctx, t, e), Step(ctx0, t0, e), es[1..]);
    }
  }

  /**
   * An archive that cannot be opened is reported once and contributes nothing, and a second,
   * valid archive of the same loader is still scanned.
   */
  lemma FailedArchiveDoesNotStopScan(ctx: Ctx, l: Loader, bad: Url, good: Url, fs: string -> FileNode)
    requires bad.file != [] && good.file != []
    requires fs(bad.file).RegularFile? && EndsWith(Lower(fs(bad.file).name), JarSuffix)
    requires fs(bad.file).archive.OpenFailed?
    requires fs(good.file).RegularFile? && EndsWith(Lower(fs(good.file).name), JarSuffix)
    requires fs(good.file).archive.Opened?
    ensures var r := Run(ctx, Start, UrlsEvents(l, [bad, good], fs));
      && !r.aborted
      && r.paths == fs(good.file).archive.entries
      && |r.messages| >= 1
      && r.messages[0] == "failed scanning jar: " + bad.file + ": " + fs(bad.file).archive.error
  {
    var first := UrlEvents(l, bad, fs);
    var second := UrlEvents(l, good, fs);
    assert UrlsEvents(l, [bad, good], fs) == first + second by {
      assert [bad, good][1..] == [good];
      assert UrlsEvents(l, [good], fs) == second + UrlsEvents(l, [], fs);
    }
    RunAppend(ctx, Start, first, second);
    var mid := Run(ctx, Start, first);
    assert first == [Note("failed scanning jar: " + bad.file + ": " + fs(bad.file).archive.error)];
    assert mid == Start.(messages := [first[0].message]);
    JarEventsVisitAll(l, fs(good.file).archive.entries);
    RunPaths(ctx, mid, second);
    RunGrows(ctx, mid, second);
  }

  /**
   * A directory root holding a/B.class and a/readme.txt, scanned with a handler and no
   * filter, hands over the class a.B and then the resource a/readme.txt.
   */
  lemma DirectoryScenario(l: Loader, load: (Loader, string) -> LoadResult)
    ensures var files := [DirFile("/r/a/B.class", Some("/r/a/B.class")),
                          DirFile("/r/a/readme.txt", Some("/r/a/readme.txt"))];
      Run(Ctx(NoFilters, true, load), Start, DirEvents(l, 2, files)).handled ==
        [Resource(l, "/r/a/B.class", "a.B", true), Resource(l, "/r/a/readme.txt", "a/readme.txt", false)]
  {
    var f1 := DirFile("/r/a/B.class", Some("/r/a/B.class"));
    var f2 := DirFile("/r/a/readme.txt", Some("/r/a/readme.txt"));
    var e1 := Visited(l, "/r/a/B.class", "a/B.class");
    var e2 := Visited(l, "/r/a/readme.txt", "a/readme.txt");
    ScenarioEvents(l, f1, f2, e1, e2);
    ScenarioNames();
    var ctx := Ctx(NoFilters, true, load);
    var c1 := Resource(l, "/r/a/B.class", "a.B", true);
    var c2 := Resource(l, "/r/a/readme.txt", "a/readme.txt", false);
    NoFiltersAcceptAll("a.B", true, load(l, "a.B"));
    NoFiltersAcceptAll("a/readme.txt", false, load(l, "a/readme.txt"));
    var t1 := Step(ctx, Start, e1);
    assert t1.handled == [c1];
    var t2 := Step(ctx, t1, e2);
    assert t2.handled == [c1, c2];
    assert [e1, e2][1..] == [e2] && [e2][1..] == [];
    assert Run(ctx, t1, [e2]) == t2;
  }

  /** The two files of the directory scenario, under the root "/r", give one visit each. */
  lemma ScenarioEvents(l: Loader, f1: DirFile, f2: DirFile, e1: Event, e2: Event)
    requires f1 == DirFile("/r/a/B.class", Some("/r/a/B.class"))
    requires f2 == DirFile("/r/a/readme.txt", Some("/r/a/readme.txt"))
    requires e1 == Visited(l, "/r/a/B.class", "a/B.class")
    requires e2 == Visited(l, "/r/a/readme.txt", "a/readme.txt")
    ensures DirEvents(l, 2, [f1, f2]) == [e1, e2]
  {
    assert "/r/a/B.class"[3..] == "a/B.class";
    assert "/r/a/readme.txt"[3..] == "a/readme.txt";
    assert [f1, f2][1..] == [f2] && [f2][1..] == [];
  }

  /** The resource names of the directory scenario: a class "a.B" and a plain resource. */
  lemma ScenarioNames()
    ensures IsClassResource("a/B.class") && ResourceName("a/B.class") == "a.B"
    ensures !IsClassResource("a/readme.txt") && ResourceName("a/readme.txt") == "a/readme.txt"
  {
    assert Lower("a/B.class")[3..] == ".class";
    assert DotSeparators("a/B") == "a.B";
    assert Lower("a/readme.txt")[6..] == "me.txt";
  }
}
