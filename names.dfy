/**
 * Name normalisation of the scanner: how a raw entry name found under a root becomes the
 * resource name that filters and handlers see, and how the raw name is cut out of the
 * path that the directory or archive walk reports.
 */
module Names {
  import opened Wrappers

  /** Suffix that marks a compiled class file; compared case-insensitively. */
  const ClassSuffix := ".class"
  /** Suffix that marks an archive root; compared case-insensitively. */
  const JarSuffix := ".jar"
  /** Marker of a nested (inner) class in a binary class name. */
  const InnerMarker := '$'

  /** Lower-cases the ASCII letters; every other character is left alone. */
  function LowerChar(c: char): char {
    if 'A' <= c <= 'Z' then (c as int + 32) as char else c
  }

  function Lower(s: string): string {
    seq(|s|, i requires 0 <= i < |s| => LowerChar(s[i]))
  }

  predicate StartsWith(s: string, prefix: string) {
    |prefix| <= |s| && s[..|prefix|] == prefix
  }

  predicate EndsWith(s: string, suffix: string) {
    |suffix| <= |s| && s[|s| - |suffix|..] == suffix
  }

  /**
   * A raw entry name denotes a class iff its lower-cased form ends with ".class": it has at
   * least six characters and the last six, each lower-cased on its own, spell the suffix.
   */
  predicate IsClassResource(raw: string): (b: bool)
    ensures b <==> (|raw| >= |ClassSuffix| &&
      forall i :: 0 <= i < |ClassSuffix| ==> LowerChar(raw[|raw| - |ClassSuffix| + i]) == ClassSuffix[i])
  {
    if |raw| >= |ClassSuffix| then EndsWithLowerAt(raw, ClassSuffix); EndsWith(Lower(raw), ClassSuffix)
    else EndsWith(Lower(raw), ClassSuffix)
  }

  predicate IsSeparator(c: char) {
    c == '/' || c == '\\'
  }

  function DotSeparator(c: char): char {
    if IsSeparator(c) then '.' else c
  }

  /** Replaces every '/' and every '\' by '.', one character at a time. */
  function DotSeparators(s: string): (r: string)
    ensures |r| == |s|
    ensures forall i :: 0 <= i < |s| ==> r[i] == DotSeparator(s[i])
    ensures forall i :: 0 <= i < |r| ==> !IsSeparator(r[i])
  {
    if s == [] then [] else DotSeparators(s[..|s| - 1]) + [DotSeparator(s[|s| - 1])]
  }

  /**
   * The resource name of a raw entry name: for a class, the name without its 6-character
   * suffix and with separators turned into dots; for anything else, the raw name itself.
   */
  function ResourceName(raw: string): (r: string)
    ensures IsClassResource(raw) ==>
      |raw| >= |ClassSuffix| && |r| == |raw| - |ClassSuffix| &&
      (forall i :: 0 <= i < |r| ==> r[i] == DotSeparator(raw[i])) &&
      (forall i :: 0 <= i < |r| ==> !IsSeparator(r[i]))
    ensures !IsClassResource(raw) ==> r == raw
  {
    if IsClassResource(raw) then DotSeparators(raw[..|raw| - |ClassSuffix|]) else raw
  }

  /** A suffix test on the lower-cased form, character by character. */
  lemma EndsWithLowerAt(s: string, suffix: string)
    requires |suffix| <= |s|
    ensures EndsWith(Lower(s), suffix) <==>
      forall i :: 0 <= i < |suffix| ==> LowerChar(s[|s| - |suffix| + i]) == suffix[i]
  {
    if forall i :: 0 <= i < |suffix| ==> LowerChar(s[|s| - |suffix| + i]) == suffix[i] {
      assert Lower(s)[|s| - |suffix|..] == suffix;
    }
  }

  /** Turning separators into dots never changes whether a character lower-cases to a given letter. */
  lemma DotSeparatorLetter(c: char, x: char)
    requires 'a' <= x <= 'z'
    ensures LowerChar(DotSeparator(c)) == x <==> LowerChar(c) == x
    ensures LowerChar(DotSeparator(c)) == '.' <==> c == '.' || IsSeparator(c)
  {
  }

  /**
   * The class name handed to handlers still ends with ".class" (ignoring case) exactly when
   * the raw name minus its suffix ends with "class" preceded by a dot or a separator, as in
   * "x/class.class". A Java class or package cannot be named "class", so for every real class
   * file the resource name does not end with ".class".
   */
  lemma ResourceNameKeepsNoSuffix(raw: string)
    requires IsClassResource(raw)
    ensures var base := raw[..|raw| - |ClassSuffix|];
      EndsWith(Lower(ResourceName(raw)), ClassSuffix) <==>
        (|base| >= |ClassSuffix| && EndsWith(Lower(base), "class") &&
         (base[|base| - 6] == '.' || IsSeparator(base[|base| - 6])))
  {
    var base := raw[..|raw| - |ClassSuffix|];
    var r := ResourceName(raw);
    if |base| >= 6 {
      var n := |base|;
      EndsWithClassAt(r);
      EndsWithWordAt(base);
      assert r[n - 6] == DotSeparator(base[n - 6]);
      assert r[n - 5] == DotSeparator(base[n - 5]);
      assert r[n - 4] == DotSeparator(base[n - 4]);
      assert r[n - 3] == DotSeparator(base[n - 3]);
      assert r[n - 2] == DotSeparator(base[n - 2]);
      assert r[n - 1] == DotSeparator(base[n - 1]);
      DotSeparatorLetter(base[n - 5], 'c');
      DotSeparatorLetter(base[n - 4], 'l');
      DotSeparatorLetter(base[n - 3], 'a');
      DotSeparatorLetter(base[n - 2], 's');
      DotSeparatorLetter(base[n - 1], 's');
    }
  }

  /** Ending with ".class" ignoring case, spelt out character by character. */
  lemma EndsWithClassAt(s: string)
    requires |s| >= 6
    ensures var n := |s|;
      EndsWith(Lower(s), ClassSuffix) <==>
        LowerChar(s[n - 6]) == '.' && LowerChar(s[n - 5]) == 'c' && LowerChar(s[n - 4]) == 'l' &&
        LowerChar(s[n - 3]) == 'a' && LowerChar(s[n - 2]) == 's' && LowerChar(s[n - 1]) == 's'
  {
    EndsWithLowerAt(s, ClassSuffix);
    var n := |s|;
    assert ClassSuffix[0] == '.' && ClassSuffix[1] == 'c' && ClassSuffix[2] == 'l';
    assert ClassSuffix[3] == 'a' && ClassSuffix[4] == 's' && ClassSuffix[5] == 's';
    assert s[n - 6] == s[n - 6 + 0];
  }

  /** Ending with "class" ignoring case, spelt out character by character. */
  lemma EndsWithWordAt(s: string)
    requires |s| >= 5
    ensures var n := |s|;
      EndsWith(Lower(s), "class") <==>
        LowerChar(s[n - 5]) == 'c' && LowerChar(s[n - 4]) == 'l' &&
        LowerChar(s[n - 3]) == 'a' && LowerChar(s[n - 2]) == 's' && LowerChar(s[n - 1]) == 's'
  {
    EndsWithLowerAt(s, "class");
    var n := |s|;
    assert "class"[0] == 'c' && "class"[1] == 'l' && "class"[2] == 'a' && "class"[3] == 's' && "class"[4] == 's';
    assert s[n - 5] == s[n - 5 + 0];
  }

  /** A raw name such as "x/class.class" still yields a name ending in ".class". */
  lemma DoubledSuffixSurvives()
    ensures IsClassResource("x/class.class") && ResourceName("x/class.class") == "x.class"
  {
    assert Lower("x/class.class") == "x/class.class";
    assert Lower("x/class.class")[7..] == ".class";
    assert DotSeparators("x/class") == "x.class";
  }

  /** The raw name of an archive entry: the entry path without its leading '/', as scanByJar takes it. */
  function ArchiveEntryName(path: string): (raw: string)
    requires |path| > 0
    ensures path[0] == '/' ==> path == "/" + raw
    ensures |raw| == |path| - 1
  {
    path[1..]
  }

  /**
   * The raw name of a file found under a directory root, as scanByDirectory takes it: the
   * canonical file path with the root's canonical path and one separator cut off, or None
   * where Java's substring would throw because the file path is no longer than the root's.
   */
  function DirectoryEntryName(rootLen: nat, canonical: string): (raw: Option<string>)
    ensures raw.None? <==> |canonical| < rootLen + 1
    ensures raw.Some? ==> canonical == canonical[..rootLen + 1] + raw.value
  {
    if |canonical| < rootLen + 1 then None else Some(canonical[rootLen + 1..])
  }

  /** For a file under the root, cutting the prefix gives back the path relative to the root. */
  lemma DirectoryEntryNameUnderRoot(root: string, sep: char, rel: string)
    ensures DirectoryEntryName(|root|, root + [sep] + rel) == Some(rel)
  {
    assert (root + [sep] + rel)[|root| + 1..] == rel;
  }
}
