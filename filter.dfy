/**
 * The filter pipeline of scanByPath: the checks on a candidate's name and kind, followed by
 * the two checks that need the class loaded. Loading and reflection are outside the model:
 * the answer of the owning loader for the candidate's name is an input of the pipeline.
 */
module Filter {
  import opened Wrappers
  import opened Names

  /** An annotation type, identified by its name. */
  type Annotation = string

  /** What reflection reveals of a loaded class: its own annotations and those of each declared method. */
  datatype ClassInfo = ClassInfo(typeAnnotations: set<Annotation>, methodAnnotations: seq<set<Annotation>>)

  /** The owning loader's answer when asked for a class; a failure carries the exception's text. */
  datatype LoadResult = Loaded(info: ClassInfo) | LoadFailed(error: string)

  /** The scanner's filter fields, as one value. */
  datatype FilterConfig = FilterConfig(
    onlyClasses: bool,
    onlyResources: bool,
    typeAnnotation: Option<Annotation>,
    methodAnnotation: Option<Annotation>,
    excludeInnerClasses: bool,
    beginNames: seq<string>)

  /** The configuration of a fresh scanner: nothing is filtered. */
  const NoFilters := FilterConfig(false, false, None, None, false, [])

  datatype Verdict = Accept | Reject | RejectWith(message: string)

  predicate HasAnnotatedMethod(info: ClassInfo, ann: Annotation) {
    exists i :: 0 <= i < |info.methodAnnotations| && ann in info.methodAnnotations[i]
  }

  /** The early returns of scanByPath on the name and the kind, in the order the source makes them. */
  predicate PassesNameFilters(cfg: FilterConfig, name: string, isClass: bool) {
    if cfg.onlyClasses && !isClass then false
    else if cfg.onlyResources && isClass then false
    else if cfg.typeAnnotation.Some? && !isClass then false
    else if cfg.methodAnnotation.Some? && !isClass then false
    else if cfg.excludeInnerClasses && isClass && InnerMarker in name then false
    else forall k :: 0 <= k < |cfg.beginNames| ==> StartsWith(name, cfg.beginNames[k])
  }

  /**
   * What an accepted candidate satisfies, stated condition by condition rather than as the
   * source's chain of early returns.
   */
  predicate Admits(cfg: FilterConfig, name: string, isClass: bool, loaded: LoadResult) {
    && (cfg.onlyClasses ==> isClass)
    && (cfg.onlyResources ==> !isClass)
    && (cfg.typeAnnotation.Some? || cfg.methodAnnotation.Some? ==> isClass)
    && (cfg.excludeInnerClasses && isClass ==> InnerMarker !in name)
    && (forall prefix :: prefix in cfg.beginNames ==> StartsWith(name, prefix))
    && (cfg.typeAnnotation.Some? ==> loaded.Loaded? && cfg.typeAnnotation.value in loaded.info.typeAnnotations)
    && (cfg.methodAnnotation.Some? ==> loaded.Loaded? && HasAnnotatedMethod(loaded.info, cfg.methodAnnotation.value))
  }

  /**
   * The whole pipeline for one candidate: the name checks, then the type-annotation check and
   * the method-annotation check, each of which turns a load failure into a message.
   */
  function Decide(cfg: FilterConfig, name: string, isClass: bool, loaded: LoadResult): (v: Verdict)
    ensures v == Accept <==> Admits(cfg, name, isClass, loaded)
    ensures v.RejectWith? <==>
      PassesNameFilters(cfg, name, isClass) && isClass && loaded.LoadFailed? &&
      (cfg.typeAnnotation.Some? || cfg.methodAnnotation.Some?)
    ensures v.RejectWith? && cfg.typeAnnotation.Some? ==> v.message == "failed to load class: " + loaded.error
    ensures v.RejectWith? && cfg.typeAnnotation.None? ==>
      v.message == "failed to scan methods at class " + name + " : " + loaded.error
  {
    if !PassesNameFilters(cfg, name, isClass) then Reject
    else if isClass && cfg.typeAnnotation.Some? && loaded.LoadFailed? then
      RejectWith("failed to load class: " + loaded.error)
    else if isClass && cfg.typeAnnotation.Some? && cfg.typeAnnotation.value !in loaded.info.typeAnnotations then
      Reject
    else if isClass && cfg.methodAnnotation.Some? && loaded.LoadFailed? then
      RejectWith("failed to scan methods at class " + name + " : " + loaded.error)
    else if isClass && cfg.methodAnnotation.Some? && !HasAnnotatedMethod(loaded.info, cfg.methodAnnotation.value) then
      Reject
    else Accept
  }

  /**
   * The method-annotation search of scanByPath: is there a declared method carrying the annotation?
   * The loop stops at the first one found.
   */
  method AnyMethodAnnotated(methods: seq<set<Annotation>>, ann: Annotation) returns (found: bool)
    ensures found <==> exists i :: 0 <= i < |methods| && ann in methods[i]
  {
    found := false;
    var i := 0;
    while i < |methods|
      invariant 0 <= i <= |methods|
      invariant !found
      invariant forall j :: 0 <= j < i ==> ann !in methods[j]
    {
      if ann in methods[i] {
        found := true;
        break;
      }
      i := i + 1;
    }
  }

  /** Prefix filters are conjunctive: one failing prefix is enough to reject. */
  lemma PrefixesConjunctive(cfg: FilterConfig, name: string, isClass: bool, loaded: LoadResult, a: string, b: string)
    requires a in cfg.beginNames && b in cfg.beginNames
    requires StartsWith(name, a) && !StartsWith(name, b)
    ensures Decide(cfg, name, isClass, loaded) != Accept
  {
  }

  /** With no filter configured every candidate is accepted, whatever the loader would answer. */
  lemma NoFiltersAcceptAll(name: string, isClass: bool, loaded: LoadResult)
    ensures Decide(NoFilters, name, isClass, loaded) == Accept
  {
  }

  /**
   * The prefix filter "x.y" with class-only accepts the class x/y/Z.class, rejects the class
   * x/z/W.class and rejects the resource x/y/data.bin.
   */
  lemma PrefixAndClassOnlyScenario(loaded: LoadResult)
    ensures var cfg := NoFilters.(onlyClasses := true, beginNames := ["x.y"]);
      && Decide(cfg, ResourceName("x/y/Z.class"), IsClassResource("x/y/Z.class"), loaded) == Accept
      && Decide(cfg, ResourceName("x/z/W.class"), IsClassResource("x/z/W.class"), loaded) == Reject
      && Decide(cfg, ResourceName("x/y/data.bin"), IsClassResource("x/y/data.bin"), loaded) == Reject
  {
    var cfg := NoFilters.(onlyClasses := true, beginNames := ["x.y"]);
    ScenarioClassName("x/y/Z.class", "x.y.Z");
    ScenarioClassName("x/z/W.class", "x.z.W");
    assert "x.z.W"[..3][2] != "x.y"[2];
    assert !StartsWith("x.z.W", cfg.beginNames[0]);
    assert !PassesNameFilters(cfg, "x.z.W", true);
    assert Lower("x/y/data.bin")[6..] == "ta.bin";
    assert !IsClassResource("x/y/data.bin");
    assert !PassesNameFilters(cfg, "x/y/data.bin", false);
  }

  /** A slash-separated class file of the scenario names the dotted class. */
  lemma ScenarioClassName(raw: string, dotted: string)
    requires |raw| == 11 && |dotted| == 5 && raw[5..] == ".class"
    requires raw[1] == '/' && raw[3] == '/' && dotted[1] == '.' && dotted[3] == '.'
    requires raw[0] == dotted[0] == 'x' && raw[2] == dotted[2] && raw[4] == dotted[4]
    requires 'a' <= raw[2] <= 'z' && 'A' <= raw[4] <= 'Z'
    ensures IsClassResource(raw) && ResourceName(raw) == dotted
  {
    assert Lower(raw)[5..] == ".class";
    var r := ResourceName(raw);
    assert r[2] == DotSeparator(raw[2]) && r[4] == DotSeparator(raw[4]);
    assert r[0] == DotSeparator(raw[0]) && r[1] == DotSeparator(raw[1]) && r[3] == DotSeparator(raw[3]);
  }

}
