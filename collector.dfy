/** `processar_arquivos_universal` of main/coletor_universal.py: finds
    every PDF and font file below the source folder and copies each to the
    output folder under the name of the folder that contains it, keeping
    its extension; a name already present in the output folder is a
    conflict and is not overwritten. */
module Collector {

  /** The extensions collected, in the order they are searched. */
  const Extensions: seq<string> := [".pdf", ".ttf", ".otf", ".woff", ".woff2"]

  /** A file below the source folder: the name of the folder holding it and
      its own name. */
  datatype SourceFile = SourceFile(parent: string, name: string)

  predicate EndsWith(s: string, tail: string) {
    |tail| <= |s| && s[|s| - |tail|..] == tail
  }

  /** `str.rfind('.')`: the index of the last dot, or -1. */
  function LastDot(s: string): (r: int)
    ensures -1 <= r < |s|
    ensures r >= 0 ==> s[r] == '.' && forall k :: r < k < |s| ==> s[k] != '.'
    ensures r == -1 ==> forall k :: 0 <= k < |s| ==> s[k] != '.'
    decreases |s|
  {
    if s == [] then -1 else if s[|s| - 1] == '.' then |s| - 1 else LastDot(s[..|s| - 1])
  }

  /** `PurePath.suffix`: from the last dot on, unless that dot starts the
      name or ends it. */
  function Suffix(name: string): (sfx: string)
  {
    var i := LastDot(name);
    if 0 < i < |name| - 1 then name[i..] else ""
  }

  /** A suffix is empty, or a proper tail of the name that starts with
      its last dot and has something after that dot. */
  lemma SuffixShape(name: string)
    ensures var sfx := Suffix(name);
      sfx == [] || (sfx[0] == '.' && EndsWith(name, sfx) && 2 <= |sfx| < |name| &&
                    forall k :: 1 <= k < |sfx| ==> sfx[k] != '.')
  {
  }

  /** The output name of a file: its parent folder's name and its suffix. */
  function DestName(f: SourceFile): string {
    f.parent + Suffix(f.name)
  }

  /** `rglob('*' + ext)`: the files whose name ends with `ext`, in the
      order the tree is walked. */
  function Matching(files: seq<SourceFile>, ext: string): (ms: seq<SourceFile>)
    ensures |ms| <= |files|
    ensures forall k :: 0 <= k < |ms| ==> EndsWith(ms[k].name, ext)
    ensures forall f :: f in ms <==> f in files && EndsWith(f.name, ext)
    decreases |files|
  {
    if files == [] then []
    else
      var f := files[|files| - 1];
      Matching(files[..|files| - 1], ext) + (if EndsWith(f.name, ext) then [f] else [])
  }

  /** The found list after searching the given extensions in order. */
  function FoundFor(files: seq<SourceFile>, exts: seq<string>): seq<SourceFile>
    decreases |exts|
  {
    if exts == [] then [] else FoundFor(files, exts[..|exts| - 1]) + Matching(files, exts[|exts| - 1])
  }

  function Found(files: seq<SourceFile>): seq<SourceFile> {
    FoundFor(files, Extensions)
  }

  /** A file is found exactly when its name ends with one of the
      extensions. */
  lemma {:induction false} FoundForMembers(files: seq<SourceFile>, exts: seq<string>)
    ensures forall f :: f in FoundFor(files, exts) <==> f in files && exists e :: e in exts && EndsWith(f.name, e)
    decreases |exts|
  {
    if exts != [] {
      var init := exts[..|exts| - 1];
      var last := exts[|exts| - 1];
      FoundForMembers(files, init);
      forall f | f in files && (exists e :: e in exts && EndsWith(f.name, e))
        ensures f in FoundFor(files, exts)
      {
        var e :| e in exts && EndsWith(f.name, e);
        if e != last {
          assert e in init;
        }
      }
    }
  }

  // -----------------------------------------------------------------------
  // Extensions and suffixes

  /** No extension is a tail of another, so a name ends with at most one
      of them: in particular `.woff` does not pick up `.woff2` files. */
  lemma ExtensionsDisjoint(name: string, i: nat, j: nat)
    requires i < |Extensions| && j < |Extensions| && i != j
    ensures !(EndsWith(name, Extensions[i]) && EndsWith(name, Extensions[j]))
  {
    var a, b := Extensions[i], Extensions[j];
    if |b| <= |a| {
      ExtensionTails(i, j);
      TailOfTail(name, a, b);
    } else {
      ExtensionTails(j, i);
      TailOfTail(name, b, a);
    }
  }

  lemma ExtensionTails(i: nat, j: nat)
    requires i < |Extensions| && j < |Extensions| && i != j
    ensures !EndsWith(Extensions[i], Extensions[j])
  {
    var a, b := Extensions[i], Extensions[j];
    if |b| <= |a| {
      // the extensions differ within their last three characters
      assert a[|a| - 1] != b[|b| - 1] || a[|a| - 2] != b[|b| - 2] || a[|a| - 3] != b[|b| - 3];
      assert a[|a| - |b|..][|b| - 1] == a[|a| - 1];
      assert a[|a| - |b|..][|b| - 2] == a[|a| - 2];
      assert a[|a| - |b|..][|b| - 3] == a[|a| - 3];
    }
  }

  /** Two tails of one string: the shorter is a tail of the longer. */
  lemma TailOfTail(s: string, a: string, b: string)
    ensures EndsWith(s, a) && EndsWith(s, b) && |b| <= |a| ==> EndsWith(a, b)
  {
    if EndsWith(s, a) && EndsWith(s, b) && |b| <= |a| {
      assert a[|a| - |b|..] == s[|s| - |b|..];
    }
  }

  /** A file found for extension `ext` keeps `ext` as its suffix, unless
      its whole name is the extension (a name such as `.pdf`), whose
      suffix is empty. */
  lemma SuffixOfMatched(name: string, i: nat)
    requires i < |Extensions| && EndsWith(name, Extensions[i])
    ensures |name| > |Extensions[i]| ==> Suffix(name) == Extensions[i]
    ensures |name| == |Extensions[i]| ==> Suffix(name) == ""
  {
    var ext := Extensions[i];
    var p := |name| - |ext|;
    assert ext[0] == '.' && forall k :: 1 <= k < |ext| ==> ext[k] != '.';
    assert name[p] == '.' by { assert name[p..][0] == ext[0]; }
    forall k | p < k < |name|
      ensures name[k] != '.'
    {
      assert name[k] == name[p..][k - p] == ext[k - p];
    }
    var d := LastDot(name);
    assert d == p;
  }

  /** A PDF and a font in the same folder get different output names. */
  lemma SameFolderDifferentSuffix(f: SourceFile, g: SourceFile)
    requires f.parent == g.parent && Suffix(f.name) != Suffix(g.name)
    ensures DestName(f) != DestName(g)
  {
    assert DestName(f)[|f.parent|..] == Suffix(f.name);
    assert DestName(g)[|g.parent|..] == Suffix(g.name);
  }

  // -----------------------------------------------------------------------
  // The copy loop

  /** The output folder and the two counters after a prefix of the found
      files. */
  datatype Tally = Tally(dest: map<string, SourceFile>, copied: nat, conflicts: nat)

  /** The copy loop over the found files in order, `rename` giving each
      file's output name: a taken name is a
      conflict and changes nothing in the folder, otherwise the file is
      copied when `copies(k)` says the k-th copy succeeds; a failed copy
      changes neither the folder nor the counters. */
  function Collect(dest: map<string, SourceFile>, found: seq<SourceFile>, rename: SourceFile -> string, copies: nat -> bool): Tally
    decreases |found|
  {
    if found == [] then Tally(dest, 0, 0)
    else
      var k := |found| - 1;
      var t := Collect(dest, found[..k], rename, copies);
      var name := rename(found[k]);
      if name in t.dest then Tally(t.dest, t.copied, t.conflicts + 1)
      else if copies(k) then Tally(t.dest[name := found[k]], t.copied + 1, t.conflicts)
      else t
  }

  /** One more found file: a conflict when its name is taken, else a copy
      when the copy succeeds, else nothing. */
  lemma CollectStep(dest: map<string, SourceFile>, found: seq<SourceFile>, k: nat, rename: SourceFile -> string, copies: nat -> bool)
    requires k < |found|
    ensures var t := Collect(dest, found[..k], rename, copies);
      var name := rename(found[k]);
      Collect(dest, found[..k + 1], rename, copies) ==
        if name in t.dest then Tally(t.dest, t.copied, t.conflicts + 1)
        else if copies(k) then Tally(t.dest[name := found[k]], t.copied + 1, t.conflicts)
        else t
  {
    assert found[..k + 1][..k] == found[..k];
  }

  /** Every found file is either copied, a conflict, or a failed copy: the
      counters add up to at most the number found, and to exactly that
      when no copy fails. The folder only grows by one entry per copy. */
  lemma {:induction false} CollectCounts(dest: map<string, SourceFile>, found: seq<SourceFile>, rename: SourceFile -> string, copies: nat -> bool)
    ensures var t := Collect(dest, found, rename, copies);
      && t.copied + t.conflicts <= |found|
      && ((forall k :: 0 <= k < |found| ==> copies(k)) ==> t.copied + t.conflicts == |found|)
      && |t.dest.Keys| == |dest.Keys| + t.copied
    decreases |found|
  {
    if found != [] {
      CollectCounts(dest, found[..|found| - 1], rename, copies);
    }
  }

  /** Files already in the output folder are never replaced, and every
      new entry is a found file copied under its own output name. */
  lemma {:induction false} CollectFrame(dest: map<string, SourceFile>, found: seq<SourceFile>, rename: SourceFile -> string, copies: nat -> bool)
    ensures var t := Collect(dest, found, rename, copies);
      && (forall name :: name in dest ==> name in t.dest && t.dest[name] == dest[name])
      && (forall name :: name in t.dest && name !in dest ==>
            t.dest[name] in found && rename(t.dest[name]) == name)
    decreases |found|
  {
    if found != [] {
      var n := |found| - 1;
      var init := found[..n];
      CollectFrame(dest, init, rename, copies);
      var t0 := Collect(dest, init, rename, copies);
      var t := Collect(dest, found, rename, copies);
      forall name | name in t.dest && name !in dest
        ensures t.dest[name] in found && rename(t.dest[name]) == name
      {
        if name in t0.dest {
          assert t.dest[name] == t0.dest[name];
          var j :| 0 <= j < |init| && init[j] == t0.dest[name];
          assert found[j] == init[j];
        } else {
          assert t.dest[name] == found[n];
        }
      }
    }
  }

  /** First file wins: the first found file with a given output name is
      the one copied under it, when that name was free and its copy
      succeeds; every later file with the same name is a conflict. */
  lemma {:induction false} CollectFirstWins(dest: map<string, SourceFile>, found: seq<SourceFile>,
                                            rename: SourceFile -> string, copies: nat -> bool, k: nat)
    requires k < |found| && rename(found[k]) !in dest && copies(k)
    requires forall j :: 0 <= j < k ==> rename(found[j]) != rename(found[k])
    ensures rename(found[k]) in Collect(dest, found, rename, copies).dest
    ensures Collect(dest, found, rename, copies).dest[rename(found[k])] == found[k]
    decreases |found|
  {
    var n := |found| - 1;
    var init := found[..n];
    var name := rename(found[k]);
    var last := rename(found[n]);
    var t0 := Collect(dest, init, rename, copies);
    var t := Collect(dest, found, rename, copies);
    if k < n {
      assert init[k] == found[k];
      assert forall j :: 0 <= j < k ==> init[j] == found[j];
      CollectFirstWins(dest, init, rename, copies, k);
      assert name in t0.dest && t0.dest[name] == found[k];
      if last in t0.dest {
        assert t.dest == t0.dest;
      } else if copies(n) {
        assert t.dest == t0.dest[last := found[n]];
      } else {
        assert t.dest == t0.dest;
      }
    } else {
      CollectAbsent(dest, init, rename, copies, name);
      assert t.dest == t0.dest[name := found[n]];
    }
  }

  /** A name that no file maps to and the folder lacks stays free. */
  lemma {:induction false} CollectAbsent(dest: map<string, SourceFile>, found: seq<SourceFile>,
                                         rename: SourceFile -> string, copies: nat -> bool, name: string)
    requires name !in dest
    requires forall j :: 0 <= j < |found| ==> rename(found[j]) != name
    ensures name !in Collect(dest, found, rename, copies).dest
    decreases |found|
  {
    if found != [] {
      var init := found[..|found| - 1];
      assert forall j :: 0 <= j < |init| ==> init[j] == found[j];
      CollectAbsent(dest, init, rename, copies, name);
    }
  }

  // -----------------------------------------------------------------------
  // The whole function

  /** How a run ends: no source folder, nothing found, or the counters. */
  datatype CollectReport = NoSourceFolder | NothingFound | Done(copied: nat, conflicts: nat)

  function Universal(sourceExists: bool, files: seq<SourceFile>, copies: nat -> bool,
                     dest: map<string, SourceFile>): (r: CollectReport)
    ensures r.Done? ==> sourceExists && Found(files) != [] && r.copied + r.conflicts <= |Found(files)|
  {
    if !sourceExists then NoSourceFolder
    else if Found(files) == [] then NothingFound
    else
      CollectCounts(dest, Found(files), DestName, copies);
      var t := Collect(dest, Found(files), DestName, copies);
      Done(t.copied, t.conflicts)
  }

  /** The output folder, whose set of names grows in place. */
  class Folder {
    var entries: map<string, SourceFile>

    constructor (initial: map<string, SourceFile>)
      ensures entries == initial
    {
      entries := initial;
    }

    /** `shutil.copy2` to a free name. */
    method Copy(name: string, f: SourceFile)
      modifies this
      ensures entries == old(entries)[name := f]
    {
      entries := entries[name := f];
    }
  }

  /** The search phase: `rglob` for each extension in turn, the matches of
      each appended to the found list. */
  method GatherFound(files: seq<SourceFile>) returns (found: seq<SourceFile>)
    ensures found == Found(files)
  {
    found := [];
    var e := 0;
    while e < |Extensions|
      invariant 0 <= e <= |Extensions|
      invariant found == FoundFor(files, Extensions[..e])
    {
      assert Extensions[..e + 1][..e] == Extensions[..e];
      found := found + Matching(files, Extensions[e]);
      e := e + 1;
    }
    assert Extensions[..|Extensions|] == Extensions;
  }

  /** The copy phase: each found file in order is a conflict when its
      output name is taken, and is copied otherwise. */
  method CopyAll(found: seq<SourceFile>, copies: nat -> bool, out: Folder) returns (copied: nat, conflicts: nat)
    modifies out
    ensures Collect(old(out.entries), found, DestName, copies) == Tally(out.entries, copied, conflicts)
  {
    ghost var initial := out.entries;
    copied, conflicts := 0, 0;
    var k := 0;
    while k < |found|
      invariant 0 <= k <= |found|
      invariant Collect(initial, found[..k], DestName, copies) == Tally(out.entries, copied, conflicts)
    {
      var f := found[k];
      var name := DestName(f);
      CollectStep(initial, found, k, DestName, copies);
      ghost var next := Collect(initial, found[..k + 1], DestName, copies);
      if name in out.entries {
        conflicts := conflicts + 1;
        assert next == Tally(out.entries, copied, conflicts);
      } else if copies(k) {
        out.Copy(name, f);
        copied := copied + 1;
        assert next == Tally(out.entries, copied, conflicts);
      } else {
        assert next == Tally(out.entries, copied, conflicts);
      }
      k := k + 1;
    }
    assert found[..|found|] == found;
  }

  /** `processar_arquivos_universal`: `sourceExists` says whether the source
      folder exists, `files` lists the files below it in walk order, and
      `copies(k)` whether copying the k-th found file succeeds. */
  method ProcessarArquivosUniversal(sourceExists: bool, files: seq<SourceFile>, copies: nat -> bool, out: Folder)
    returns (report: CollectReport)
    modifies out
    ensures report == Universal(sourceExists, files, copies, old(out.entries))
    ensures report.Done? ==> out.entries == Collect(old(out.entries), Found(files), DestName, copies).dest
    ensures !report.Done? ==> out.entries == old(out.entries)
  {
    if !sourceExists {
      return NoSourceFolder;
    }
    var found := GatherFound(files);
    if found == [] {
      return NothingFound;
    }
    var copied, conflicts := CopyAll(found, copies, out);
    return Done(copied, conflicts);
  }
}
