/**
 * The scanner object: its configuration setters, the registration of class loaders, the
 * scan itself and the counters read afterwards. Each scanning method is proved to leave the
 * object in the state that running its events (see module Walk) describes.
 */
module Scanner {
  import opened Wrappers
  import opened Names
  import opened PathList
  import opened Filter
  import opened Loaders
  import opened Walk

  /** A handler that records every resource it is handed, in order. */
  class Handler {
    var received: seq<Resource>

    constructor ()
      ensures received == []
    {
      received := [];
    }

    method Handle(r: Resource)
      modifies this
      ensures received == old(received) + [r]
    {
      received := received + [r];
    }
  }

  /** What a possibly absent handler has received; nothing when there is no handler. */
  function Received(h: Handler?): seq<Resource>
    reads h
  {
    if h == null then [] else h.received
  }

  /** A class, seen only through the loader that defined it (null for a bootstrap class). */
  datatype ClassRef = ClassRef(loader: Loader?)

  /** The loaders addClass visits: the class's loader and its ancestors. */
  ghost function ChainOf(cls: Option<ClassRef>): seq<Loader>
    requires cls.Some? && cls.value.loader != null ==> cls.value.loader.Valid()
  {
    if cls.None? then [] else ChainFrom(cls.value.loader)
  }

  /**
   * The class-path segments that addSystemPropertyPaths turns into loaders, each not blank
   * and naming an existing file. The early return for a blank value changes nothing: such a
   * value keeps no segment anyway.
   */
  function ClassPathSegments(value: Option<string>, sep: char, fileExists: string -> bool): (r: seq<string>)
    ensures value.None? ==> r == []
    ensures value.Some? ==> r == Kept(Split(value.value, sep), fileExists)
  {
    if value.None? then []
    else if IsBlank(value.value) then BlankValueKeepsNothing(value.value, sep, fileExists); []
    else Kept(Split(value.value, sep), fileExists)
  }

  /** Each added loader is a URL class loader over one segment's URL, with the given parent. */
  ghost predicate LoadersFor(added: seq<Loader>, segments: seq<string>, toUrl: string -> Url, parent: Loader?) {
    |added| == |segments| &&
    forall i :: 0 <= i < |added| ==> added[i].kind == UrlLoader([toUrl(segments[i])]) && added[i].parent == parent
  }

  lemma LoadersForStep(added: seq<Loader>, segments: seq<string>, toUrl: string -> Url, parent: Loader?,
                       l: Loader, segment: string)
    requires LoadersFor(added, segments, toUrl, parent)
    requires l.kind == UrlLoader([toUrl(segment)]) && l.parent == parent
    ensures LoadersFor(added + [l], segments + [segment], toUrl, parent)
  {
  }

  /** Number of paths whose text ends with ".class", compared case-sensitively. */
  function ClassPathCount(ps: seq<string>): (n: nat)
    ensures n <= |ps|
  {
    if ps == [] then 0
    else ClassPathCount(ps[..|ps| - 1]) + (if EndsWith(ps[|ps| - 1], ClassSuffix) then 1 else 0)
  }

  /** Every path counts as a class exactly when every path ends with ".class". */
  lemma {:induction false} ClassPathCountBounds(ps: seq<string>)
    ensures ClassPathCount(ps) == |ps| <==> forall i :: 0 <= i < |ps| ==> EndsWith(ps[i], ClassSuffix)
  {
    if ps != [] {
      var init := ps[..|ps| - 1];
      ClassPathCountBounds(init);
      assert forall i :: 0 <= i < |init| ==> init[i] == ps[i];
    }
  }

  /** A path counted as a class also names a class resource; the converse fails for "A.CLASS". */
  lemma CountedPathIsClassResource(p: string)
    ensures EndsWith(p, ClassSuffix) ==> IsClassResource(p)
    ensures IsClassResource("A.CLASS") && !EndsWith("A.CLASS", ClassSuffix)
  {
    if EndsWith(p, ClassSuffix) {
      EndsWithLowerAt(p, ClassSuffix);
    }
    EndsWithLowerAt("A.CLASS", ClassSuffix);
  }

  /** Registering a class's chain keeps the loaders distinct and valid, and only appends the missing ones. */
  lemma AddChainKeepsValid(xs: seq<Loader>, cls: Option<ClassRef>)
    requires Registered(xs)
    requires cls.Some? && cls.value.loader != null ==> cls.value.loader.Valid()
    ensures AddMissing(xs, ChainOf(cls)) == xs + Missing(ChainOf(cls), xs)
    ensures Registered(AddMissing(xs, ChainOf(cls)))
  {
    var chain := ChainOf(cls);
    if cls.Some? && cls.value.loader != null {
      ChainNoDuplicates(cls.value.loader);
    }
    AddMissingAppendsMissing(xs, chain);
    AddMissingNoDuplicates(xs, chain);
    AddMissingAllValid(xs, chain);
  }

  class ClasspathScanner {
    var messages: seq<string>
    var paths: seq<string>
    var classLoaders: seq<Loader>
    var beginResourceNameFilters: seq<string>
    var filterOnlyResources: bool
    var filterOnlyClasses: bool
    var methodAnnotation: Option<Annotation>
    var typeAnnotation: Option<Annotation>
    var excludeInnerClasses: bool

    /** Class-only and resource-only are never both set; the loaders are distinct and have finite chains. */
    ghost predicate Valid()
      reads this
    {
      && !(filterOnlyClasses && filterOnlyResources)
      && Registered(classLoaders)
    }

    /** The filter fields as one value. */
    function Cfg(): FilterConfig
      reads this
    {
      FilterConfig(filterOnlyClasses, filterOnlyResources, typeAnnotation, methodAnnotation,
                   excludeInnerClasses, beginResourceNameFilters)
    }

    /** The scan state: recorded paths and messages, what the handler received, and whether the scan was cut short. */
    ghost function State(h: Handler?, aborted: bool): Trace
      reads this, h
    {
      Trace(paths, messages, Received(h), aborted)
    }

    /**
     * A new scanner: the bootstrap class path's loader first, then one loader per usable
     * segment of the class path. Both loaders' parent is the system class loader.
     */
    constructor (bootstrapUrls: seq<Url>, systemLoader: Loader?, classPath: Option<string>, sep: char,
                 fileExists: string -> bool, toUrl: string -> Url)
      requires systemLoader != null ==> systemLoader.Valid()
      ensures Valid() && Cfg() == NoFilters && paths == [] && messages == []
      ensures |classLoaders| >= 1 && fresh(classLoaders[0])
      ensures classLoaders[0].kind == UrlLoader(bootstrapUrls) && classLoaders[0].parent == systemLoader
      ensures LoadersFor(classLoaders[1..], ClassPathSegments(classPath, sep, fileExists), toUrl, systemLoader)
      ensures forall i :: 1 <= i < |classLoaders| ==> fresh(classLoaders[i])
    {
      messages, paths, beginResourceNameFilters := [], [], [];
      filterOnlyResources, filterOnlyClasses, excludeInnerClasses := false, false, false;
      methodAnnotation, typeAnnotation := None, None;
      var boot := new Loader(UrlLoader(bootstrapUrls), systemLoader);
      classLoaders := [boot];
      new;
      AddSystemPropertyPaths(classPath, sep, fileExists, toUrl, systemLoader);
      assert classLoaders[0] == boot;
    }

    /**
     * Registers one URL class loader per class-path segment that is not blank and names an
     * existing file, in order. A missing or blank value adds nothing.
     */
    method AddSystemPropertyPaths(value: Option<string>, sep: char, fileExists: string -> bool,
                                  toUrl: string -> Url, systemLoader: Loader?)
      requires Valid()
      requires systemLoader != null ==> systemLoader.Valid()
      modifies this
      ensures Valid()
      ensures |classLoaders| >= |old(classLoaders)| && classLoaders[..|old(classLoaders)|] == old(classLoaders)
      ensures LoadersFor(classLoaders[|old(classLoaders)|..], ClassPathSegments(value, sep, fileExists), toUrl, systemLoader)
      ensures forall i :: |old(classLoaders)| <= i < |classLoaders| ==> fresh(classLoaders[i])
      ensures Cfg() == old(Cfg()) && paths == old(paths) && messages == old(messages)
    {
      if value.None? || IsBlank(value.value) {
        return;
      }
      var parts := Split(value.value, sep);
      var i := 0;
      ghost var added: seq<Loader> := [];
      while i < |parts|
        invariant 0 <= i <= |parts|
        invariant Valid()
        invariant classLoaders == old(classLoaders) + added
        invariant LoadersFor(added, Kept(parts[..i], fileExists), toUrl, systemLoader)
        invariant forall k :: 0 <= k < |added| ==> fresh(added[k])
        invariant Cfg() == old(Cfg()) && paths == old(paths) && messages == old(messages)
      {
        var part := parts[i];
        KeptStep(parts, i, fileExists);
        if !IsBlank(part) && fileExists(part) {
          var l := new Loader(UrlLoader([toUrl(part)]), systemLoader);
          RegisterNew(classLoaders, l);
          LoadersForStep(added, Kept(parts[..i], fileExists), toUrl, systemLoader, l, part);
          classLoaders := classLoaders + [l];
          added := added + [l];
        }
        i := i + 1;
      }
      assert parts[..|parts|] == parts;
      assert classLoaders[|old(classLoaders)|..] == added;
    }

    /**
     * Registers the loader of a class and every ancestor of it that is not registered yet,
     * in chain order. Registered loaders keep their places.
     */
    method AddClass(cls: Option<ClassRef>)
      requires Valid()
      requires cls.Some? && cls.value.loader != null ==> cls.value.loader.Valid()
      modifies this
      ensures Valid()
      ensures classLoaders == old(classLoaders) + Missing(ChainOf(cls), old(classLoaders))
      ensures cls.None? ==> classLoaders == old(classLoaders)
      ensures Cfg() == old(Cfg()) && paths == old(paths) && messages == old(messages)
    {
      if cls.None? {
        return;
      }
      var registered := RegisterChain(classLoaders, cls.value.loader);
      AddChainKeepsValid(classLoaders, cls);
      classLoaders := registered;
    }

    method GetClassLoaders() returns (ls: seq<Loader>)
      ensures ls == classLoaders
    {
      ls := classLoaders;
    }

    /** Adds a prefix that every handled resource name must start with; an absent prefix is ignored. */
    method FilterBeginResourceName(prefix: Option<string>)
      requires Valid()
      modifies this
      ensures Valid()
      ensures Cfg() == if prefix.None? then old(Cfg())
                       else old(Cfg()).(beginNames := old(Cfg().beginNames) + [prefix.value])
      ensures classLoaders == old(classLoaders) && paths == old(paths) && messages == old(messages)
    {
      if prefix.Some? {
        beginResourceNameFilters := beginResourceNameFilters + [prefix.value];
      }
    }

    /** Handle only classes; cancels resource-only. */
    method FilterClassOnly()
      requires Valid()
      modifies this
      ensures Valid()
      ensures Cfg() == old(Cfg()).(onlyClasses := true, onlyResources := false)
      ensures classLoaders == old(classLoaders) && paths == old(paths) && messages == old(messages)
    {
      filterOnlyClasses := true;
      filterOnlyResources := false;
    }

    /** Handle only non-class resources; cancels class-only. */
    method FilterResourceOnly()
      requires Valid()
      modifies this
      ensures Valid()
      ensures Cfg() == old(Cfg()).(onlyClasses := false, onlyResources := true)
      ensures classLoaders == old(classLoaders) && paths == old(paths) && messages == old(messages)
    {
      filterOnlyClasses := false;
      filterOnlyResources := true;
    }

    /** Handle only classes declaring a method with this annotation; None switches the check off. */
    method FilterMethodAnnotation(ann: Option<Annotation>)
      requires Valid()
      modifies this
      ensures Valid()
      ensures Cfg() == old(Cfg()).(methodAnnotation := ann)
      ensures classLoaders == old(classLoaders) && paths == old(paths) && messages == old(messages)
    {
      methodAnnotation := ann;
    }

    /** Handle only classes carrying this annotation; None switches the check off. */
    method FilterTypeAnnotation(ann: Option<Annotation>)
      requires Valid()
      modifies this
      ensures Valid()
      ensures Cfg() == old(Cfg()).(typeAnnotation := ann)
      ensures classLoaders == old(classLoaders) && paths == old(paths) && messages == old(messages)
    {
      typeAnnotation := ann;
    }

    /** Skip classes whose name contains '$'. */
    method FilterExcludeInnerClasses()
      requires Valid()
      modifies this
      ensures Valid()
      ensures Cfg() == old(Cfg()).(excludeInnerClasses := true)
      ensures classLoaders == old(classLoaders) && paths == old(paths) && messages == old(messages)
    {
      excludeInnerClasses := true;
    }

    /**
     * Scans every registered loader. The recorded paths and messages are those of this scan
     * only; the handler receives the accepted resources in traversal order. When a directory
     * root throws, the scan stops where it was (aborted is true).
     */
    method Scan(handler: Handler?, fs: string -> FileNode, load: (Loader, string) -> LoadResult)
      returns (aborted: bool)
      requires Valid()
      modifies this, handler
      ensures Valid() && Cfg() == old(Cfg()) && classLoaders == old(classLoaders)
      ensures var r := ScanResult(Ctx(Cfg(), handler != null, load), classLoaders, fs);
        && paths == r.paths && messages == r.messages && aborted == r.aborted
        && Received(handler) == old(Received(handler)) + r.handled
    {
      // reset
      paths := [];
      messages := [];
      ghost var t0 := State(handler, false);
      aborted := ScanLoaders(handler, fs, load);
      RunFromState(Ctx(Cfg(), handler != null, load), t0, WalkEvents(classLoaders, fs));
    }

    /** The registered loaders in order; an exception out of one of them ends the walk. */
    method ScanLoaders(handler: Handler?, fs: string -> FileNode, load: (Loader, string) -> LoadResult)
      returns (aborted: bool)
      modifies this, handler
      ensures Cfg() == old(Cfg()) && classLoaders == old(classLoaders)
      ensures State(handler, aborted) ==
        Run(Ctx(Cfg(), handler != null, load), old(State(handler, false)), WalkEvents(classLoaders, fs))
    {
      ghost var ctx := Ctx(Cfg(), handler != null, load);
      var loaders := classLoaders;
      aborted := false;
      var i := 0;
      while i < |loaders|
        invariant 0 <= i <= |loaders|
        invariant Cfg() == old(Cfg()) && classLoaders == old(classLoaders)
        invariant Run(ctx, old(State(handler, false)), WalkEvents(loaders, fs)) ==
          Run(ctx, State(handler, false), WalkEvents(loaders[i..], fs))
      {
        var l := loaders[i];
        ghost var before := State(handler, false);
        ghost var rest := WalkEvents(loaders[i + 1..], fs);
        assert loaders[i..][1..] == loaders[i + 1..];
        assert WalkEvents(loaders[i..], fs) == LoaderEvents(l, fs) + rest;
        aborted := ScanLoader(handler, l, fs, load);
        RunAppend(ctx, before, LoaderEvents(l, fs), rest);
        if aborted {
          RunStopped(ctx, State(handler, true), rest);
          return;
        }
        i := i + 1;
      }
      assert WalkEvents(loaders[i..], fs) == [];
    }

    /** One registered loader: only URL class loaders can be walked; any other is reported. */
    method ScanLoader(handler: Handler?, l: Loader, fs: string -> FileNode,
                      load: (Loader, string) -> LoadResult)
      returns (aborted: bool)
      modifies this, handler
      ensures Cfg() == old(Cfg()) && classLoaders == old(classLoaders)
      ensures State(handler, aborted) ==
        Run(Ctx(Cfg(), handler != null, load), old(State(handler, false)), LoaderEvents(l, fs))
    {
      match l.kind
      case UrlLoader(urls) =>
        aborted := ScanByClassLoader(handler, l, fs, load);
      case OtherLoader(d) =>
        aborted := false;
        messages := messages + ["unsupported ClassLaoder: " + d];
        assert State(handler, false) ==
          Run(Ctx(Cfg(), handler != null, load), old(State(handler, false)), LoaderEvents(l, fs));
    }

    /** The URLs of one URL class loader, dispatched by what each URL's file is. */
    method ScanByClassLoader(handler: Handler?, l: Loader, fs: string -> FileNode,
                             load: (Loader, string) -> LoadResult)
      returns (aborted: bool)
      requires l.kind.UrlLoader?
      modifies this, handler
      ensures Cfg() == old(Cfg()) && classLoaders == old(classLoaders)
      ensures State(handler, aborted) ==
        Run(Ctx(Cfg(), handler != null, load), old(State(handler, false)), UrlsEvents(l, l.kind.urls, fs))
    {
      ghost var ctx := Ctx(Cfg(), handler != null, load);
      var urls := l.kind.urls;
      aborted := false;
      var j := 0;
      while j < |urls|
        invariant 0 <= j <= |urls|
        invariant Cfg() == old(Cfg()) && classLoaders == old(classLoaders)
        invariant Run(ctx, old(State(handler, false)), UrlsEvents(l, urls, fs)) ==
          Run(ctx, State(handler, false), UrlsEvents(l, urls[j..], fs))
      {
        var u := urls[j];
        ghost var before := State(handler, false);
        ghost var rest := UrlsEvents(l, urls[j + 1..], fs);
        assert urls[j..][1..] == urls[j + 1..];
        assert UrlsEvents(l, urls[j..], fs) == UrlEvents(l, u, fs) + rest;
        aborted := ScanUrl(handler, l, u, fs, load);
        RunAppend(ctx, before, UrlEvents(l, u, fs), rest);
        if aborted {
          RunStopped(ctx, State(handler, true), rest);
          return;
        }
        j := j + 1;
      }
    }

    /**
     * One URL of a URL class loader: a directory is walked, a file named like an archive is
     * read as one, and anything else is reported as not found. A URL without a file part is skipped.
     */
    method ScanUrl(handler: Handler?, l: Loader, u: Url, fs: string -> FileNode,
                   load: (Loader, string) -> LoadResult)
      returns (aborted: bool)
      modifies this, handler
      ensures Cfg() == old(Cfg()) && classLoaders == old(classLoaders)
      ensures State(handler, aborted) ==
        Run(Ctx(Cfg(), handler != null, load), old(State(handler, false)), UrlEvents(l, u, fs))
    {
      ghost var ctx := Ctx(Cfg(), handler != null, load);
      aborted := false;
      if u.file != [] {
        match fs(u.file)
        case Directory(root, files) =>
          aborted := ScanByDirectory(handler, l, root, files, load);
        case RegularFile(name, archive) =>
          if EndsWith(Lower(name), JarSuffix) {
            ScanByJar(handler, l, u.file, archive, load);
          } else {
            messages := messages + ["not found: " + u.text];
            assert State(handler, false) == Run(ctx, old(State(handler, false)), UrlEvents(l, u, fs));
          }
        case Nonexistent =>
          messages := messages + ["not found: " + u.text];
          assert State(handler, false) == Run(ctx, old(State(handler, false)), UrlEvents(l, u, fs));
      }
    }

    /** An archive root: its entries one by one, or one message when it cannot be opened. */
    method ScanByJar(handler: Handler?, l: Loader, file: string, archive: Archive,
                     load: (Loader, string) -> LoadResult)
      modifies this, handler
      ensures Cfg() == old(Cfg()) && classLoaders == old(classLoaders)
      ensures State(handler, false) ==
        Run(Ctx(Cfg(), handler != null, load), old(State(handler, false)), ArchiveEvents(l, file, archive))
    {
      ghost var ctx := Ctx(Cfg(), handler != null, load);
      match archive
      case OpenFailed(e) =>
        messages := messages + ["failed scanning jar: " + file + ": " + e];
      case Opened(entries) =>
        var i := 0;
        while i < |entries|
          invariant 0 <= i <= |entries|
          invariant Cfg() == old(Cfg()) && classLoaders == old(classLoaders)
          invariant Run(ctx, old(State(handler, false)), JarEvents(l, entries)) ==
            Run(ctx, State(handler, false), JarEvents(l, entries[i..]))
        {
          var entry := entries[i];
          assert entries[i..][1..] == entries[i + 1..];
          ScanByPath(handler, l, ArchiveEntryName(entry), entry, load);
          i := i + 1;
        }
    }

    /**
     * A directory root: its files one by one, each named by its canonical path without the
     * root's. A failing canonicalisation or a too short canonical path throws: the scan stops.
     */
    method ScanByDirectory(handler: Handler?, l: Loader, root: Option<string>, files: seq<DirFile>,
                           load: (Loader, string) -> LoadResult)
      returns (aborted: bool)
      modifies this, handler
      ensures Cfg() == old(Cfg()) && classLoaders == old(classLoaders)
      ensures State(handler, aborted) ==
        Run(Ctx(Cfg(), handler != null, load), old(State(handler, false)), DirectoryEvents(l, root, files))
    {
      ghost var ctx := Ctx(Cfg(), handler != null, load);
      match root
      case None =>
        aborted := true;
      case Some(r) =>
        aborted := false;
        var i := 0;
        while i < |files|
          invariant 0 <= i <= |files|
          invariant Cfg() == old(Cfg()) && classLoaders == old(classLoaders)
          invariant Run(ctx, old(State(handler, false)), DirEvents(l, |r|, files)) ==
            Run(ctx, State(handler, false), DirEvents(l, |r|, files[i..]))
        {
          var f := files[i];
          ghost var rest := DirEvents(l, |r|, files[i + 1..]);
          assert files[i..][1..] == files[i + 1..];
          var raw := if f.canonicalPath.None? then None else DirectoryEntryName(|r|, f.canonicalPath.value);
          if raw.None? {
            aborted := true;
            RunStopped(ctx, State(handler, true), rest);
            return;
          }
          ScanByPath(handler, l, raw.value, f.path, load);
          i := i + 1;
        }
    }

    /**
     * One entry: record its path, then, when there is a handler, normalise its name, apply
     * the filters and hand the resource over if it passes them all.
     */
    method ScanByPath(handler: Handler?, l: Loader, raw: string, path: string,
                      load: (Loader, string) -> LoadResult)
      modifies this, handler
      ensures Cfg() == old(Cfg()) && classLoaders == old(classLoaders)
      ensures State(handler, false) ==
        Visit(Ctx(Cfg(), handler != null, load), old(State(handler, false)), l, path, raw)
    {
      paths := paths + [path];
      if handler == null {
        return;
      }
      var isClass := IsClassResource(raw);
      var name := ResourceName(raw);
      var v := Judge(l, name, isClass, load);
      match v
      case Accept =>
        handler.Handle(Resource(l, path, name, isClass));
      case Reject =>
      case RejectWith(m) =>
        messages := messages + [m];
    }

    /**
     * The filters in the order they are applied, from the cheap name checks to the ones that
     * load the class; a failed load yields the message the scan records.
     */
    method Judge(l: Loader, name: string, isClass: bool, load: (Loader, string) -> LoadResult)
      returns (v: Verdict)
      ensures v == Decide(Cfg(), name, isClass, load(l, name))
    {
      if filterOnlyClasses && !isClass {
        return Reject;
      }
      if filterOnlyResources && isClass {
        return Reject;
      }
      if typeAnnotation.Some? && !isClass {
        return Reject;
      }
      if methodAnnotation.Some? && !isClass {
        return Reject;
      }
      if excludeInnerClasses && isClass && InnerMarker in name {
        return Reject;
      }
      var prefixed := HasAllPrefixes(name);
      if !prefixed {
        return Reject;
      }
      if isClass && typeAnnotation.Some? {
        match load(l, name)
        case LoadFailed(e) =>
          return RejectWith("failed to load class: " + e);
        case Loaded(info) =>
          if typeAnnotation.value !in info.typeAnnotations {
            return Reject;
          }
      }
      if isClass && methodAnnotation.Some? {
        match load(l, name)
        case LoadFailed(e) =>
          return RejectWith("failed to scan methods at class " + name + " : " + e);
        case Loaded(info) =>
          var found := AnyMethodAnnotated(info.methodAnnotations, methodAnnotation.value);
          if !found {
            return Reject;
          }
      }
      return Accept;
    }

    /** Whether the name starts with every registered prefix; stops at the first that fails. */
    method HasAllPrefixes(name: string) returns (ok: bool)
      ensures ok <==> forall k :: 0 <= k < |beginResourceNameFilters| ==> StartsWith(name, beginResourceNameFilters[k])
    {
      var k := 0;
      while k < |beginResourceNameFilters|
        invariant 0 <= k <= |beginResourceNameFilters|
        invariant forall j :: 0 <= j < k ==> StartsWith(name, beginResourceNameFilters[j])
      {
        if !StartsWith(name, beginResourceNameFilters[k]) {
          return false;
        }
        k := k + 1;
      }
      return true;
    }

    method GetMessages() returns (ms: seq<string>)
      ensures ms == messages
    {
      ms := messages;
    }

    /** Number of visited entries, filtered out or not. */
    method GetResourcesCount() returns (n: nat)
      ensures n == |paths|
    {
      n := |paths|;
    }

    /** Number of visited paths ending with ".class" (case-sensitive); never more than the resources count. */
    method GetClassesCount() returns (n: nat)
      ensures n == ClassPathCount(paths) && n <= |paths|
    {
      n := 0;
      var i := 0;
      while i < |paths|
        invariant 0 <= i <= |paths|
        invariant n == ClassPathCount(paths[..i])
      {
        assert paths[..i + 1][..i] == paths[..i];
        if EndsWith(paths[i], ClassSuffix) {
          n := n + 1;
        }
        i := i + 1;
      }
      assert paths[..|paths|] == paths;
    }
  }
}
