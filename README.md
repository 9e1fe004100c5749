# ClasspathScanner in Dafny

`ClasspathScanner` walks the class path of a Java program. It starts with a list of class loaders:
the bootstrap class path's loader, one loader per existing `java.class.path` segment, and the loaders of
any registered class together with their parents. For every URL of every URL class loader, it visits each
file of a directory root or each entry of a `.jar` root. It records every visited path, then derives a
resource name: a name ending in `.class`, ignoring case, loses that suffix and gets dots instead of
separators. It then applies the configured filters and hands the resources that pass to a handler. The
filters are class-only, resource-only, excluded inner classes, name prefixes, a type annotation and a
method annotation. Problems along the way become messages: unsupported loaders, missing roots, unreadable
archives and classes that fail to load.

The model has these modules:

- `Names`: the name derivation, that is, class-resource detection, suffix removal, separator dotting and
  the prefix stripping of archive and directory entries.
- `PathList`: Java's `String.split` with limit -1, blank detection, and the segments kept by
  `addSystemPropertyPaths`.
- `Filter`: the filter configuration and the decision on one candidate, taken against the answer of a
  class-loading oracle.
- `Loaders`: URLs, roots, archives, and a `Loader` class with an immutable parent chain. It also holds
  the "append what is missing" fold behind `addClass`.
- `Walk`: the traversal as a sequence of events (`Visited`, `Note`, `Abort`). `Run` is its meaning on a
  `Trace`, which holds the recorded paths, messages, handled resources and an aborted flag. The file also
  holds the lemmas about whole scans.
- `Scanner`: the `ClasspathScanner` class itself. Its fields are those of the Java class, its setters
  update them in place, and its scanning methods loop over loaders, URLs and entries. Each scanning
  method is proved to leave exactly the state that `Run` gives for its events. `Handler` is a recording
  handler.

These become parameters of the model:

- the file system (`fs: string -> FileNode`, each node with its canonical path and its files or archive
  entries);
- class loading (`load: (Loader, string) -> LoadResult`, the annotations of a loaded class or the
  error);
- `File.exists` (`fileExists`);
- URL construction (`toUrl`);
- the path separator;
- the value of the `java.class.path` property;
- the bootstrap URLs.

An exception that escapes a scan is the `Abort` event. It is raised when a directory root or one of its
files cannot be canonicalised, or when a canonical path is no longer than its root. The state reached so
far is kept and `Scan` reports `aborted`.

## Model

| member | source | states |
|---|---|---|
| Names.ResourceName | src/main/java/de/greyshine/utils/ClasspathScanner.java:367-369 | for a class resource the name is the raw name minus its last 6 characters with every '/' and '\' turned into '.', so it is 6 shorter and has no separator; any other name is returned unchanged |
| Names.IsClassResource | src/main/java/de/greyshine/utils/ClasspathScanner.java:367 | true exactly when the name has at least six characters and its last six, each lower-cased, spell ".class": the test ignores case |
| Names.DotSeparators | src/main/java/de/greyshine/utils/ClasspathScanner.java:369 | same length as the input, each '/' and '\' replaced by '.', every other character kept, no separator left |
| Names.ResourceNameKeepsNoSuffix | src/main/java/de/greyshine/utils/ClasspathScanner.java:367-369 | a class resource's name still ends with ".class" (ignoring case) exactly when the raw name minus its suffix ends with "class" preceded by '.', '/' or '\' |
| Names.DoubledSuffixSurvives | src/test/java/de/greyshine/utils/ClasspathScannerTest.java:64 | "x/class.class" normalises to "x.class", so the test's "name does not end with .class" holds only for real class names |
| Names.ArchiveEntryName | src/main/java/de/greyshine/utils/ClasspathScanner.java:298 | an archive entry path is "/" followed by its resource name; the name is one character shorter |
| Names.DirectoryEntryName | src/main/java/de/greyshine/utils/ClasspathScanner.java:336 | no name (the substring throws) exactly when the canonical path is shorter than root length + 1; otherwise the canonical path is its first root length + 1 characters followed by the name |
| Names.DirectoryEntryNameUnderRoot | src/main/java/de/greyshine/utils/ClasspathScanner.java:322-336 | a file whose canonical path is the root, one separator and a relative path gets exactly that relative path as its name |
| PathList.Split | src/main/java/de/greyshine/utils/ClasspathScanner.java:121 | at least one segment, no segment holds the separator, every character comes from the input |
| PathList.JoinSplit | src/main/java/de/greyshine/utils/ClasspathScanner.java:121 | joining the segments with the separator gives back the property value |
| PathList.SplitJoin | src/main/java/de/greyshine/utils/ClasspathScanner.java:121 | splitting a join of separator-free segments gives back those segments, empty ones included (limit -1) |
| PathList.SplitNoSeparator | src/main/java/de/greyshine/utils/ClasspathScanner.java:121 | a value without separator is one segment |
| PathList.SplitFirstSegment | src/main/java/de/greyshine/utils/ClasspathScanner.java:121 | the text before the first separator is the first segment, the rest splits on its own |
| PathList.Trim | src/main/java/de/greyshine/utils/ClasspathScanner.java:117-125 | Java's `trim`: what remains starts and ends with a character above space, and is empty exactly when the text is blank, so `trim().isEmpty()` is `IsBlank` |
| PathList.Kept | src/main/java/de/greyshine/utils/ClasspathScanner.java:121-130 | every kept segment is not blank and names an existing file |
| PathList.KeptMembers | src/main/java/de/greyshine/utils/ClasspathScanner.java:121-130 | a segment is kept exactly when it occurs in the value, is not blank and names an existing file |
| PathList.KeptLength | src/main/java/de/greyshine/utils/ClasspathScanner.java:121-130 | no more loaders are added than there are segments |
| PathList.BlankValueKeepsNothing | src/main/java/de/greyshine/utils/ClasspathScanner.java:117-119 | a blank property value keeps no segment, because every segment of its split is blank too; the early return changes nothing |
| Filter.Decide | src/main/java/de/greyshine/utils/ClasspathScanner.java:371-468 | accepts exactly the candidates `Admits` describes: the class/resource kind filters, the annotation filters only for classes, no '$' in excluded inner classes, every prefix, the type annotation and an annotated method; rejects with a message exactly when the candidate passes the name and kind filters, is a class, an annotation filter is set and the class fails to load; the message is the type-check one when a type annotation is set, else the method-scan one, each with the error text |
| Filter.AnyMethodAnnotated | src/main/java/de/greyshine/utils/ClasspathScanner.java:447-459 | true exactly when some declared method carries the annotation |
| Filter.PrefixesConjunctive | src/main/java/de/greyshine/utils/ClasspathScanner.java:387-391 | a name that misses one registered prefix is rejected even if it has another |
| Filter.NoFiltersAcceptAll | src/main/java/de/greyshine/utils/ClasspathScanner.java:371-391 | with the initial configuration every candidate is accepted without looking at the loader |
| Filter.PrefixAndClassOnlyScenario | src/main/java/de/greyshine/utils/ClasspathScanner.java:371-391 | with class-only and prefix "x.y": "x/y/Z.class" is accepted, "x/z/W.class" and "x/y/data.bin" are rejected |
| Loaders.Loader.Chain | src/main/java/de/greyshine/utils/ClasspathScanner.java:163-174 | the chain starts at the loader, every later loader is a valid ancestor closer to the root |
| Loaders.RegisterChain | src/main/java/de/greyshine/utils/ClasspathScanner.java:164-173 | walking the parent chain with contains-then-add yields the list followed by the chain's loaders that were missing, in chain order |
| Loaders.AddMissing | src/main/java/de/greyshine/utils/ClasspathScanner.java:164-173 | the contains-then-add fold never shrinks the list and grows it by at most one loader per chain element |
| Loaders.ChainNoDuplicates | src/main/java/de/greyshine/utils/ClasspathScanner.java:163-174 | a parent chain never repeats a loader |
| Loaders.MissingMembers | src/main/java/de/greyshine/utils/ClasspathScanner.java:165-168 | the appended loaders are exactly the chain's loaders not registered before |
| Loaders.MissingAfterAppend | src/main/java/de/greyshine/utils/ClasspathScanner.java:165-168 | after appending what was missing, nothing of the chain is missing: a second `addClass` of the same class adds nothing |
| Loaders.AddMissingPrefix | src/main/java/de/greyshine/utils/ClasspathScanner.java:165-168 | registered loaders keep their places |
| Loaders.AddMissingMembers | src/main/java/de/greyshine/utils/ClasspathScanner.java:165-168 | afterwards the list holds exactly the old loaders and the chain's |
| Loaders.AddMissingNoDuplicates | src/main/java/de/greyshine/utils/ClasspathScanner.java:165-168 | the contains-then-add step never introduces a duplicate |
| Loaders.AddMissingAppendsMissing | src/main/java/de/greyshine/utils/ClasspathScanner.java:163-174 | for a chain without repetition, contains-then-add appends the missing loaders in chain order |
| Loaders.AddMissingAllValid | src/main/java/de/greyshine/utils/ClasspathScanner.java:163-174 | every registered loader keeps a finite parent chain |
| Walk.RunAppend | src/main/java/de/greyshine/utils/ClasspathScanner.java:199-211 | running two event lists in a row is running their concatenation |
| Walk.Visit | src/main/java/de/greyshine/utils/ClasspathScanner.java:358-471 | the path is recorded whatever happens next and the scan goes on; without a handler nothing is handed over and no message is added |
| Walk.VisitOutcome | src/main/java/de/greyshine/utils/ClasspathScanner.java:358-471 | the candidate is handed over exactly when a handler is given and it passes every filter (`Admits`); a message is added only with a handler and only for a class that failed to load |
| Walk.VisitReportsLoadFailure | src/main/java/de/greyshine/utils/ClasspathScanner.java:423-468 | with a handler, a class that passes the name and kind filters but fails to load under an annotation filter is not handed over, and exactly the failed check's message with the error text is added |
| Walk.JarEvents | src/main/java/de/greyshine/utils/ClasspathScanner.java:288-301 | one visit per archive entry, in order, by the entry's loader, under the entry path with its leading '/' removed |
| Walk.ArchiveEvents | src/main/java/de/greyshine/utils/ClasspathScanner.java:279-317 | an archive never throws out of the scan; an opened one only visits entries, one that cannot be opened adds the single "failed scanning jar: " message with the file |
| Walk.FileEvent | src/main/java/de/greyshine/utils/ClasspathScanner.java:334-354 | a file throws out of the scan exactly when its canonical path is missing or no longer than the root's; otherwise it is visited under its walked path, named by what follows the root and one separator |
| Walk.DirEvents | src/main/java/de/greyshine/utils/ClasspathScanner.java:326-350 | one event per file, in walk order, never a message; each visit is of that file by the root's loader |
| Walk.DirectoryEvents | src/main/java/de/greyshine/utils/ClasspathScanner.java:319-356 | a root that cannot be canonicalised throws before any file is visited; otherwise one event per file; a directory adds no message |
| Walk.UrlEvents | src/main/java/de/greyshine/utils/ClasspathScanner.java:227-246 | an empty file part yields nothing; a message is the only event of its URL; only a directory can throw; every visit is by the URL's loader |
| Walk.UrlsEvents | src/main/java/de/greyshine/utils/ClasspathScanner.java:225-248 | every entry visited while walking a loader's URLs belongs to that loader |
| Walk.LoaderEvents | src/main/java/de/greyshine/utils/ClasspathScanner.java:201-211 | every visit is by the loader itself; a loader that is not a URL class loader yields one message and nothing else |
| Walk.WalkEvents | src/main/java/de/greyshine/utils/ClasspathScanner.java:201-211 | every entry visited by the scan belongs to one of the registered loaders |
| Walk.RunStopped | src/main/java/de/greyshine/utils/ClasspathScanner.java:352-354 | after an escaping exception nothing more happens |
| Walk.RunExtend | src/main/java/de/greyshine/utils/ClasspathScanner.java:218-223 | running from a state that already holds entries only adds to it as a run from the empty state would |
| Walk.RunFromState | src/main/java/de/greyshine/utils/ClasspathScanner.java:195-223 | a scan's effect is that of a run from empty lists: `reset` makes the outcome independent of earlier scans |
| Walk.RunPaths | src/main/java/de/greyshine/utils/ClasspathScanner.java:361 | without an exception the recorded paths are exactly the visited paths in order, one per visited entry |
| Walk.PathsIgnoreFilters | src/main/java/de/greyshine/utils/ClasspathScanner.java:361-365 | the recorded paths and the abort do not depend on the filters, the handler or class loading |
| Walk.PathsAgree | src/main/java/de/greyshine/utils/ClasspathScanner.java:361 | the paths recorded by a run depend only on the paths already recorded |
| Walk.RunGrows | src/main/java/de/greyshine/utils/ClasspathScanner.java:358-471 | paths, messages and handled resources are only ever appended to |
| Walk.HandledAreAdmitted | src/main/java/de/greyshine/utils/ClasspathScanner.java:358-471 | only with a handler is anything handled; each handled resource passed every filter, has a dotted name if it is a class, and its path was recorded in the same run |
| Walk.NoHandlerNoDispatch | src/main/java/de/greyshine/utils/ClasspathScanner.java:361-365 | without a handler nothing is handled and the only messages are the traversal's own |
| Walk.MessagesAreExplained | src/main/java/de/greyshine/utils/ClasspathScanner.java:195-223 | every message recorded by a run is a traversal message of that run or, with a handler, a failed class load |
| Walk.UnfilteredHandlesEveryPath | src/main/java/de/greyshine/utils/ClasspathScanner.java:361-470 | with a handler and no filter, every recorded path is handed over, in the same order |
| Walk.JarEventsVisitAll | src/main/java/de/greyshine/utils/ClasspathScanner.java:296-300 | an opened archive visits each entry once, in order, without an exception |
| Walk.DirEventsAbort | src/main/java/de/greyshine/utils/ClasspathScanner.java:334-339 | a directory walk ends with an exception exactly when some file cannot be named under the root |
| Walk.ScanHandlesOnlyAdmitted | src/main/java/de/greyshine/utils/ClasspathScanner.java:371-470 | every resource a scan hands over passed every filter and is dotted if a class |
| Walk.ScanRespectsKindFilters | src/main/java/de/greyshine/utils/ClasspathScanner.java:371-385 | class-only hands over only classes, resource-only only non-classes, exclude-inner no class with '$' |
| Walk.ScanHandlesAtMostVisited | src/main/java/de/greyshine/utils/ClasspathScanner.java:361-470 | a scan hands over at most as many resources as it records paths |
| Walk.HandledAtMostUnfiltered | src/main/java/de/greyshine/utils/ClasspathScanner.java:371-468 | filters only ever remove resources: a filtered run hands over no more than an unfiltered one |
| Walk.FailedArchiveDoesNotStopScan | src/main/java/de/greyshine/utils/ClasspathScanner.java:279-317 | an unreadable archive leaves one "failed scanning jar" message and the next archive is still scanned in full |
| Walk.DirectoryScenario | src/main/java/de/greyshine/utils/ClasspathScanner.java:319-339 | root "/r" with files "/r/a/B.class" and "/r/a/readme.txt" hands over "a.B" (a class) and "a/readme.txt" (not a class) |
| Scanner.ClassPathCountBounds | src/main/java/de/greyshine/utils/ClasspathScanner.java:268-277 | the classes count equals the number of paths exactly when every path ends with ".class" |
| Scanner.ClassPathCount | src/main/java/de/greyshine/utils/ClasspathScanner.java:268-277 | the number of paths ending with ".class" is at most the number of paths |
| Scanner.ClassPathSegments | src/main/java/de/greyshine/utils/ClasspathScanner.java:113-130 | an absent value yields no segment; for a present value, the early return for a blank value agrees with keeping the split's segments, so the loaders added are exactly `Kept` of the split |
| Scanner.CountedPathIsClassResource | src/main/java/de/greyshine/utils/ClasspathScanner.java:268-277 | a path counted as a class is also a class resource; "A.CLASS" is a class resource the count misses |
| Scanner.AddChainKeepsValid | src/main/java/de/greyshine/utils/ClasspathScanner.java:158-177 | registering a class's chain appends the missing loaders and keeps the loader list free of duplicates |
| Scanner.Handler.Handle | src/main/java/de/greyshine/utils/ClasspathScanner.java:35-41 | the recording handler appends the resource it is handed |
| Scanner.ClasspathScanner.constructor | src/main/java/de/greyshine/utils/ClasspathScanner.java:82-95 | no filter, no path, no message; a fresh bootstrap loader first, then one fresh loader per usable class-path segment |
| Scanner.ClasspathScanner.AddSystemPropertyPaths | src/main/java/de/greyshine/utils/ClasspathScanner.java:113-149 | appends one fresh URL loader per kept segment, in order, with the system loader as parent; nothing else changes |
| Scanner.ClasspathScanner.AddClass | src/main/java/de/greyshine/utils/ClasspathScanner.java:158-177 | the loader list becomes the old list followed by the chain's unregistered loaders in chain order; no class changes nothing; no duplicates |
| Scanner.ClasspathScanner.GetClassLoaders | src/main/java/de/greyshine/utils/ClasspathScanner.java:183-186 | returns the registered loaders |
| Scanner.ClasspathScanner.FilterBeginResourceName | src/main/java/de/greyshine/utils/ClasspathScanner.java:473-481 | appends the prefix; an absent prefix changes nothing |
| Scanner.ClasspathScanner.FilterClassOnly | src/main/java/de/greyshine/utils/ClasspathScanner.java:486-492 | flags become (classes, not resources), the rest unchanged, so the two never hold together and the last call wins |
| Scanner.ClasspathScanner.FilterResourceOnly | src/main/java/de/greyshine/utils/ClasspathScanner.java:497-503 | flags become (not classes, resources), the rest unchanged |
| Scanner.ClasspathScanner.FilterMethodAnnotation | src/main/java/de/greyshine/utils/ClasspathScanner.java:512-516 | sets or clears the method annotation only |
| Scanner.ClasspathScanner.FilterTypeAnnotation | src/main/java/de/greyshine/utils/ClasspathScanner.java:525-529 | sets or clears the type annotation only |
| Scanner.ClasspathScanner.FilterExcludeInnerClasses | src/main/java/de/greyshine/utils/ClasspathScanner.java:534-537 | switches inner-class exclusion on only |
| Scanner.ClasspathScanner.Scan | src/main/java/de/greyshine/utils/ClasspathScanner.java:195-223 | paths and messages become exactly those of this scan, the handler receives the scan's accepted resources after what it had, configuration and loaders are unchanged |
| Scanner.ClasspathScanner.ScanLoaders | src/main/java/de/greyshine/utils/ClasspathScanner.java:201-211 | the state after walking the registered loaders in order is that of running their events; an exception ends the walk |
| Scanner.ClasspathScanner.ScanLoader | src/main/java/de/greyshine/utils/ClasspathScanner.java:201-211 | a URL class loader is walked, any other loader adds "unsupported ClassLaoder: " and its description |
| Scanner.ClasspathScanner.ScanByClassLoader | src/main/java/de/greyshine/utils/ClasspathScanner.java:225-248 | the state after the loader's URLs is that of running their events; an exception stops at once |
| Scanner.ClasspathScanner.ScanUrl | src/main/java/de/greyshine/utils/ClasspathScanner.java:227-246 | an empty file part is skipped, a directory is walked, a regular file named ".jar" (ignoring case) is read as an archive, anything else adds "not found: " and the URL |
| Scanner.ClasspathScanner.ScanByJar | src/main/java/de/greyshine/utils/ClasspathScanner.java:279-317 | each entry is scanned under its path without the leading '/'; an archive that cannot be opened adds "failed scanning jar: " with the file and the error |
| Scanner.ClasspathScanner.ScanByDirectory | src/main/java/de/greyshine/utils/ClasspathScanner.java:319-356 | each file is scanned under its canonical path without the root's; a failing canonicalisation or a too short path stops the scan |
| Scanner.ClasspathScanner.ScanByPath | src/main/java/de/greyshine/utils/ClasspathScanner.java:358-471 | the path is recorded first; without a handler nothing else happens; otherwise the candidate is handed over, dropped, or its failure message recorded as `Decide` says |
| Scanner.ClasspathScanner.Judge | src/main/java/de/greyshine/utils/ClasspathScanner.java:371-468 | the early returns and the two guarded class loads reach the verdict `Decide` gives |
| Scanner.ClasspathScanner.HasAllPrefixes | src/main/java/de/greyshine/utils/ClasspathScanner.java:387-391 | true exactly when the name starts with every registered prefix |
| Scanner.ClasspathScanner.GetMessages | src/main/java/de/greyshine/utils/ClasspathScanner.java:253-255 | returns the recorded messages |
| Scanner.ClasspathScanner.GetResourcesCount | src/main/java/de/greyshine/utils/ClasspathScanner.java:260-262 | the number of recorded paths |
| Scanner.ClasspathScanner.GetClassesCount | src/main/java/de/greyshine/utils/ClasspathScanner.java:268-277 | the number of recorded paths ending with ".class" (case-sensitive), never more than the resources count |

## Left out

- The real file system, archive file systems and `Files.walkFileTree` are left out. A root is given as a
  `FileNode` (a directory with each entry that is not a directory, in walk order, a regular file with its archive entries or open
  error, or nothing). Entry and file paths are the path strings that `Path.toString` would give.
- Reflection and class loading (`loadClass`, `getDeclaredAnnotation`, `getDeclaredMethods`) are left out.
  They become the `load` oracle, which returns a class's annotations or the text of the error thrown. The
  oracle answers the same for both annotation checks of one candidate.
- `Launcher.getBootstrapClassPath`, `System.getProperty`, `File.exists` and `File.toURI().toURL()` become
  parameters. The `catch` that swallows a failing URL conversion (lines 131-145) is not modelled, because
  `toUrl` is total.
- `scantime`, `getScantime`, `System.currentTimeMillis`, the `System.out.println` of each method at line
  451, and every `toString` are clock, logging and formatting only. A non-URL loader's `toString` is its
  `description`.
- The `classNames` field is cleared by `reset` but never filled, so it is not modelled.
- An exception thrown by the handler itself is not modelled; the handler always returns.
- An I/O error in the middle of an archive walk is not modelled; an archive is either read in full or
  fails to open.
- Lower-casing is ASCII only (`Names.LowerChar`). Java's `toLowerCase` depends on the default locale: in
  the Turkish and Azeri locales it turns the ASCII 'I' into a dotless 'ı', and it lower-cases letters
  outside ASCII too. Neither changes the ".class" and ".jar" tests, because neither suffix contains an
  'i' and no letter outside ASCII lower-cases to one of their letters.
- The file shown in "failed scanning jar" is the URL's file part as given. `File.toString` would also
  normalise duplicate separators.
- Scanner.ClasspathScanner.GetClassesCount: the count is an unbounded `nat`; Java's `int` would wrap after
  2^31 - 1 class paths.
- Scanner.ClasspathScanner.GetResourcesCount: the count is an unbounded `nat`, where Java's `paths.size()`
  is an `int`.
- Scanner.ClasspathScanner.ScanByDirectory: the name is taken from the canonical path without checking
  that it lies under the root, as the source does. A root whose canonical path ends with a separator,
  such as "/", loses one more character; the model reproduces this rather than correcting it.
- The static factory `create` (lines 102-104) is the constructor under another name.
