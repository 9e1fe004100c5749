/**
 * The class-path value handed to addSystemPropertyPaths: a list of paths separated by the
 * platform's path separator. Splitting keeps empty segments, trailing ones included, as
 * Java's String.split with a negative limit does.
 */
module PathList {

  /** The index of the first character from st on that is neither a space nor a control character. */
  function TrimStart(s: string, st: nat): (i: nat)
    requires st <= |s|
    ensures st <= i <= |s|
    ensures forall k :: st <= k < i ==> s[k] <= ' '
    ensures i < |s| ==> s[i] > ' '
    decreases |s| - st
  {
    if st == |s| || s[st] > ' ' then st else TrimStart(s, st + 1)
  }

  /** The end of the text once the spaces and control characters before len, down to st, are dropped. */
  function TrimEnd(s: string, st: nat, len: nat): (j: nat)
    requires st <= len <= |s|
    ensures st <= j <= len
    ensures forall k :: j <= k < len ==> s[k] <= ' '
    ensures j > st ==> s[j - 1] > ' '
  {
    if len == st || s[len - 1] > ' ' then len else TrimEnd(s, st, len - 1)
  }

  /**
   * Java's String.trim: the text without the spaces and control characters at either end.
   * What remains is empty exactly when the text is blank.
   */
  function Trim(s: string): (r: string)
    ensures r == [] || (r[0] > ' ' && r[|r| - 1] > ' ')
    ensures r == [] <==> IsBlank(s)
  {
    var st := TrimStart(s, 0);
    s[st..TrimEnd(s, st, |s|)]
  }

  /** Every character is a space or a control character; Trim shows this is Java's trim().isEmpty(). */
  predicate IsBlank(s: string) {
    forall i :: 0 <= i < |s| ==> s[i] <= ' '
  }

  function Split(s: string, sep: char): (parts: seq<string>)
    ensures |parts| >= 1
    ensures forall i :: 0 <= i < |parts| ==> sep !in parts[i]
    ensures forall i, j :: 0 <= i < |parts| && 0 <= j < |parts[i]| ==> parts[i][j] in s
  {
    if s == [] then [[]]
    else
      var rest := Split(s[1..], sep);
      if s[0] == sep then [[]] + rest else [[s[0]] + rest[0]] + rest[1..]
  }

  /** The inverse of Split: the segments glued back together with the separator. */
  function Join(parts: seq<string>, sep: char): string
    requires |parts| >= 1
  {
    if |parts| == 1 then parts[0] else parts[0] + [sep] + Join(parts[1..], sep)
  }

  lemma {:induction false} JoinSplit(s: string, sep: char)
    ensures Join(Split(s, sep), sep) == s
  {
    if s != [] {
      var rest := Split(s[1..], sep);
      JoinSplit(s[1..], sep);
      if s[0] != sep {
        if |rest| == 1 {
          assert Join(Split(s, sep), sep) == [s[0]] + rest[0];
        } else {
          assert Split(s, sep)[1..] == rest[1..];
          assert Join(rest, sep) == rest[0] + [sep] + Join(rest[1..], sep);
        }
      }
    }
  }

  lemma {:induction false} SplitNoSeparator(a: string, sep: char)
    requires sep !in a
    ensures Split(a, sep) == [a]
  {
    if a != [] {
      SplitNoSeparator(a[1..], sep);
      assert [a[0]] + a[1..] == a;
    }
  }

  lemma {:induction false} SplitFirstSegment(a: string, t: string, sep: char)
    requires sep !in a
    ensures Split(a + [sep] + t, sep) == [a] + Split(t, sep)
  {
    if a == [] {
      assert a + [sep] + t == [sep] + t;
      assert ([sep] + t)[1..] == t;
    } else {
      SplitFirstSegment(a[1..], t, sep);
      assert (a + [sep] + t)[1..] == a[1..] + [sep] + t;
      assert [a[0]] + a[1..] == a;
    }
  }

  /** Segments without the separator survive a join and a split unchanged. */
  lemma {:induction false} SplitJoin(parts: seq<string>, sep: char)
    requires |parts| >= 1
    requires forall i :: 0 <= i < |parts| ==> sep !in parts[i]
    ensures Split(Join(parts, sep), sep) == parts
  {
    if |parts| == 1 {
      SplitNoSeparator(parts[0], sep);
    } else {
      SplitJoin(parts[1..], sep);
      SplitFirstSegment(parts[0], Join(parts[1..], sep), sep);
    }
  }

  /**
   * The segments that become class loaders, in order: those that are not blank and for
   * which the file system reports an existing file.
   */
  function Kept(parts: seq<string>, fileExists: string -> bool): (r: seq<string>)
    ensures forall i :: 0 <= i < |r| ==> !IsBlank(r[i]) && fileExists(r[i])
  {
    if parts == [] then []
    else
      var last := parts[|parts| - 1];
      Kept(parts[..|parts| - 1], fileExists) + (if !IsBlank(last) && fileExists(last) then [last] else [])
  }

  /** One more segment of the value: it is kept unless it is blank or names no file. */
  lemma KeptStep(parts: seq<string>, i: nat, fileExists: string -> bool)
    requires i < |parts|
    ensures Kept(parts[..i + 1], fileExists) ==
      Kept(parts[..i], fileExists) + (if !IsBlank(parts[i]) && fileExists(parts[i]) then [parts[i]] else [])
  {
    assert parts[..i + 1][..i] == parts[..i];
  }

  lemma {:induction false} KeptMembers(parts: seq<string>, fileExists: string -> bool)
    ensures forall x :: x in Kept(parts, fileExists) <==> x in parts && !IsBlank(x) && fileExists(x)
  {
    if parts != [] {
      KeptMembers(parts[..|parts| - 1], fileExists);
      assert parts == parts[..|parts| - 1] + [parts[|parts| - 1]];
    }
  }

  lemma {:induction false} KeptLength(parts: seq<string>, fileExists: string -> bool)
    ensures |Kept(parts, fileExists)| <= |parts|
  {
    if parts != [] {
      KeptLength(parts[..|parts| - 1], fileExists);
    }
  }

  /**
   * A blank value yields no loader even without the early return of the source: each of its
   * segments is blank too.
   */
  lemma BlankValueKeepsNothing(value: string, sep: char, fileExists: string -> bool)
    requires IsBlank(value)
    ensures Kept(Split(value, sep), fileExists) == []
  {
    var parts := Split(value, sep);
    KeptMembers(parts, fileExists);
    forall x | x in parts ensures IsBlank(x) {
      var i :| 0 <= i < |parts| && parts[i] == x;
      forall j | 0 <= j < |x| ensures x[j] <= ' ' {
        assert parts[i][j] in value;
      }
    }
    if Kept(parts, fileExists) != [] {
      assert Kept(parts, fileExists)[0] in Kept(parts, fileExists);
    }
  }
}
