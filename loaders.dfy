/**
 * Class loaders and what the file system shows of their roots. A URL class loader owns a
 * list of URLs; any other kind of loader cannot be scanned. Every loader may have a parent,
 * and parent chains are finite.
 */
module Loaders {
  import opened Wrappers

  /** A root URL: its printed form and the file part the scanner looks up. */
  datatype Url = Url(text: string, file: string)

  /** A path inside an archive's file system; such paths start at the archive's root "/". */
  type ArchivePath = p: string | |p| > 0 && p[0] == '/' witness "/"

  /** An archive either opens, listing its entries in walk order, or fails with an exception's text. */
  datatype Archive = Opened(entries: seq<ArchivePath>) | OpenFailed(error: string)

  /**
   * An entry met by the directory walk that is not a directory (links are not followed): the
   * walked path and its canonical path, None when canonicalisation fails.
   */
  datatype DirFile = DirFile(path: string, canonicalPath: Option<string>)

  /**
   * What the file system shows at a URL's file: a directory (its canonical path, None when
   * canonicalisation fails, and each entry that is not a directory, in walk order), a regular file (its name
   * and what opening it as an archive gives), or nothing.
   */
  datatype FileNode =
    | Directory(canonicalPath: Option<string>, files: seq<DirFile>)
    | RegularFile(name: string, archive: Archive)
    | Nonexistent

  datatype LoaderKind = UrlLoader(urls: seq<Url>) | OtherLoader(description: string)

  class Loader {
    const kind: LoaderKind
    const parent: Loader?
    /** Length of the parent chain above this loader; it makes chains finite. */
    ghost const depth: nat

    ghost predicate Valid()
      decreases depth
    {
      parent != null ==> parent.depth < depth && parent.Valid()
    }

    constructor (kind: LoaderKind, parent: Loader?)
      requires parent != null ==> parent.Valid()
      ensures Valid() && this.kind == kind && this.parent == parent
    {
      this.kind := kind;
      this.parent := parent;
      depth := if parent == null then 0 else parent.depth + 1;
    }

    /** This loader followed by its ancestors, up to the one without a parent. */
    ghost function Chain(): (c: seq<Loader>)
      requires Valid()
      decreases depth
      ensures |c| >= 1 && c[0] == this
      ensures forall i :: 0 < i < |c| ==> c[i].depth < depth
      ensures forall i :: 0 <= i < |c| ==> c[i].Valid()
    {
      [this] + (if parent == null then [] else parent.Chain())
    }
  }

  ghost predicate NoDuplicates<T>(s: seq<T>) {
    forall i, j :: 0 <= i < j < |s| ==> s[i] != s[j]
  }

  /** A list of registered loaders: each has a finite parent chain and none appears twice. */
  ghost predicate Registered(ls: seq<Loader>) {
    (forall i :: 0 <= i < |ls| ==> ls[i].Valid()) && NoDuplicates(ls)
  }

  /** Appending a valid loader that is not registered yet keeps the list registered. */
  lemma RegisterNew(ls: seq<Loader>, l: Loader)
    requires Registered(ls) && l.Valid() && l !in ls
    ensures Registered(ls + [l])
  {
  }

  /** The chain starting at a possibly absent loader: empty for null. */
  ghost function ChainFrom(l: Loader?): seq<Loader>
    requires l != null ==> l.Valid()
  {
    if l == null then [] else l.Chain()
  }

  lemma ChainFromParent(l: Loader)
    requires l.Valid()
    ensures ChainFrom(l) == [l] + ChainFrom(l.parent)
  {
  }

  /** A parent chain never repeats a loader. */
  lemma {:induction false} ChainNoDuplicates(l: Loader)
    requires l.Valid()
    ensures NoDuplicates(l.Chain())
    decreases l.depth
  {
    if l.parent != null {
      ChainNoDuplicates(l.parent);
      var c := l.Chain();
      assert c == [l] + l.parent.Chain();
      forall i, j | 0 <= i < j < |c| ensures c[i] != c[j] {
        if i == 0 {
          assert c[j].depth < l.depth;
        } else {
          assert c[i] == l.parent.Chain()[i - 1] && c[j] == l.parent.Chain()[j - 1];
        }
      }
    }
  }

  /**
   * The loop of addClass: each element of ys not yet present is appended, in the order of ys.
   * The list grows by at most one element per element of ys.
   */
  function AddMissing<T(==)>(xs: seq<T>, ys: seq<T>): (r: seq<T>)
    ensures |xs| <= |r| <= |xs| + |ys|
  {
    if ys == [] then xs
    else
      var acc := AddMissing(xs, ys[..|ys| - 1]);
      var y := ys[|ys| - 1];
      if y in acc then acc else acc + [y]
  }

  /** The elements of ys that are not in xs, in the order of ys. */
  function Missing<T(==)>(ys: seq<T>, xs: seq<T>): seq<T>
  {
    if ys == [] then []
    else Missing(ys[..|ys| - 1], xs) + (if ys[|ys| - 1] in xs then [] else [ys[|ys| - 1]])
  }

  lemma {:induction false} MissingMembers<T>(ys: seq<T>, xs: seq<T>)
    ensures forall z :: z in Missing(ys, xs) <==> z in ys && z !in xs
  {
    if ys != [] {
      MissingMembers(ys[..|ys| - 1], xs);
      assert ys == ys[..|ys| - 1] + [ys[|ys| - 1]];
    }
  }

  /** Nothing is missing from a list that already holds every element. */
  lemma {:induction false} MissingNone<T>(ys: seq<T>, xs: seq<T>)
    requires forall i :: 0 <= i < |ys| ==> ys[i] in xs
    ensures Missing(ys, xs) == []
  {
    if ys != [] {
      MissingNone(ys[..|ys| - 1], xs);
      assert ys[|ys| - 1] in xs;
    }
  }

  /** Appending what is missing leaves nothing missing: registering the same chain twice adds nothing. */
  lemma MissingAfterAppend<T>(ys: seq<T>, xs: seq<T>)
    ensures Missing(ys, xs + Missing(ys, xs)) == []
  {
    MissingMembers(ys, xs);
    forall i | 0 <= i < |ys| ensures ys[i] in xs + Missing(ys, xs) {
      if ys[i] !in xs {
        assert ys[i] in Missing(ys, xs);
      }
    }
    MissingNone(ys, xs + Missing(ys, xs));
  }

  /** Existing elements keep their places: the old list is a prefix of the new one. */
  lemma {:induction false} AddMissingPrefix<T>(xs: seq<T>, ys: seq<T>)
    ensures |AddMissing(xs, ys)| >= |xs| && AddMissing(xs, ys)[..|xs|] == xs
  {
    if ys != [] {
      AddMissingPrefix(xs, ys[..|ys| - 1]);
    }
  }

  lemma {:induction false} AddMissingMembers<T>(xs: seq<T>, ys: seq<T>)
    ensures forall z :: z in AddMissing(xs, ys) <==> z in xs || z in ys
  {
    if ys != [] {
      AddMissingMembers(xs, ys[..|ys| - 1]);
      assert ys == ys[..|ys| - 1] + [ys[|ys| - 1]];
    }
  }

  /** No duplicate is introduced. */
  lemma {:induction false} AddMissingNoDuplicates<T>(xs: seq<T>, ys: seq<T>)
    requires NoDuplicates(xs)
    ensures NoDuplicates(AddMissing(xs, ys))
  {
    if ys != [] {
      AddMissingNoDuplicates(xs, ys[..|ys| - 1]);
    }
  }

  /** One more step of the fold: the element is appended unless it is already there. */
  lemma AddMissingSnoc<T>(xs: seq<T>, ys: seq<T>, y: T)
    ensures AddMissing(xs, ys + [y]) ==
      if y in AddMissing(xs, ys) then AddMissing(xs, ys) else AddMissing(xs, ys) + [y]
  {
    assert (ys + [y])[..|ys|] == ys;
  }

  /**
   * Walks a parent chain from the given loader up to the root, appending each loader that is
   * not in the list yet.
   */
  method RegisterChain(ls: seq<Loader>, l: Loader?) returns (r: seq<Loader>)
    requires l != null ==> l.Valid()
    ensures r == AddMissing(ls, ChainFrom(l))
  {
    var cl := l;
    ghost var done: seq<Loader> := [];
    r := ls;
    while cl != null
      invariant cl != null ==> cl.Valid()
      invariant done + ChainFrom(cl) == ChainFrom(l)
      invariant r == AddMissing(ls, done)
      decreases if cl == null then 0 else cl.depth + 1
    {
      var c: Loader := cl;
      ChainFromParent(c);
      assert done + [c] + ChainFrom(c.parent) == ChainFrom(l);
      AddMissingSnoc<Loader>(ls, done, c);
      if c !in r {
        r := r + [c];
      }
      done := done + [c];
      cl := c.parent;
    }
    assert done == ChainFrom(l);
  }

  /** Registering valid loaders keeps every registered loader valid. */
  lemma {:induction false} AddMissingAllValid(xs: seq<Loader>, ys: seq<Loader>)
    requires forall i :: 0 <= i < |xs| ==> xs[i].Valid()
    requires forall i :: 0 <= i < |ys| ==> ys[i].Valid()
    ensures forall i :: 0 <= i < |AddMissing(xs, ys)| ==> AddMissing(xs, ys)[i].Valid()
  {
    if ys != [] {
      AddMissingAllValid(xs, ys[..|ys| - 1]);
    }
  }

  /** For a list without repeats, such as a parent chain, exactly the missing elements are appended. */
  lemma {:induction false} AddMissingAppendsMissing<T>(xs: seq<T>, ys: seq<T>)
    requires NoDuplicates(ys)
    ensures AddMissing(xs, ys) == xs + Missing(ys, xs)
  {
    if ys != [] {
      var init := ys[..|ys| - 1];
      var y := ys[|ys| - 1];
      AddMissingAppendsMissing(xs, init);
      MissingMembers(init, xs);
    }
  }
}
