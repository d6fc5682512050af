/** Paths as Boost.Filesystem (version 3) splits and joins them, with '/'
    as the only separator. */
module Paths {
  import opened Basics

  /** The position of the last `c` in `s`, if any. */
  function LastIndexOf(s: string, c: char): (r: Option<nat>)
    ensures r.None? <==> c !in s
    ensures r.Some? ==> r.value < |s| && s[r.value] == c && c !in s[r.value + 1..]
  {
    if s == [] then None
    else if s[|s| - 1] == c then Some(|s| - 1)
    else
      var r := LastIndexOf(s[..|s| - 1], c);
      assert r.Some? ==> s[r.value + 1..] == s[..|s| - 1][r.value + 1..] + [s[|s| - 1]];
      r
  }

  /** What follows the last separator of a path (the whole path when it
      has none); empty for a path ending in a separator. */
  function LastComponent(p: string): (name: string)
    ensures '/' !in name
  {
    match LastIndexOf(p, '/')
    case None => p
    case Some(i) => p[i + 1..]
  }

  /** path::extension() as Boost.Filesystem (version 3) has it: from the
      last dot of the file name on; empty when the name has no dot or is
      "." or "..". */
  function Extension(p: string): (ext: string)
    ensures ext != "" ==> ext[0] == '.' && '/' !in ext && '.' in LastComponent(p)
  {
    var name := LastComponent(p);
    if name == "." || name == ".." then ""
    else match LastIndexOf(name, '.')
      case None => ""
      case Some(i) => name[i..]
  }

  /** An extension is empty, or a dot followed by no other dot and no
      separator, and it ends the path. */
  lemma ExtensionShape(p: string)
    ensures var ext := Extension(p);
      ext == "" || (ext[0] == '.' && '.' !in ext[1..] && '/' !in ext && |ext| <= |p| && p[|p| - |ext|..] == ext)
  {
    var name := LastComponent(p);
    LastComponentEndsPath(p);
    var ext := Extension(p);
    if ext != "" {
      var i := LastIndexOf(name, '.').value;
      assert ext == name[i..];
      assert p[|p| - |ext|..] == name[i..];
    }
  }

  /** The last component is what the path ends with. */
  lemma LastComponentEndsPath(p: string)
    ensures |LastComponent(p)| <= |p| && p[|p| - |LastComponent(p)|..] == LastComponent(p)
  {
  }

  /** A file name made of a stem, a dot and a non-empty suffix with no dot
      has that suffix, with its dot, as extension, whatever directory it
      is in. */
  lemma ExtensionOfName(dir: string, stem: string, suffix: string)
    requires '/' !in stem && '/' !in suffix && '.' !in suffix && suffix != ""
    ensures Extension(dir + "/" + stem + "." + suffix) == "." + suffix
  {
    var name := stem + ("." + suffix);
    assert dir + "/" + stem + "." + suffix == (dir + "/") + name;
    LastDotOfName(stem, suffix);
    assert (dir + "/")[|dir|] == '/';
    LastComponentAfterSeparator(dir + "/", name);
  }

  /** The last component of a directory ending in a separator, followed
      by a name, is the name. */
  lemma LastComponentAfterSeparator(dir: string, name: string)
    requires dir != [] && dir[|dir| - 1] == '/' && '/' !in name
    ensures LastComponent(dir + name) == name
  {
    LastIndexOfAppend(dir, name, '/');
    assert LastIndexOf(dir, '/') == Some(|dir| - 1);
    assert (dir + name)[|dir|..] == name;
  }

  /** The last dot of `stem.suffix` is the one before the suffix, and the
      name is neither "." nor "..". */
  lemma LastDotOfName(stem: string, suffix: string)
    requires '/' !in stem && '/' !in suffix && '.' !in suffix && suffix != ""
    ensures var name := stem + ("." + suffix);
      '/' !in name && name != "." && name != ".." &&
      LastIndexOf(name, '.') == Some(|stem|) && name[|stem|..] == "." + suffix
  {
    var dot := "." + suffix;
    var name := stem + dot;
    assert name[|name| - 1] == suffix[|suffix| - 1];
    assert '/' !in dot;
    LastIndexOfAppend(".", suffix, '.');
    LastIndexOfAppend(stem, dot, '.');
    assert name[|stem|..] == dot;
  }

  /** The last `c` of `a + b` is the last one of `b` when `b` has one,
      and otherwise the last one of `a`. */
  lemma {:induction false} LastIndexOfAppend(a: string, b: string, c: char)
    ensures LastIndexOf(a + b, c) ==
      match LastIndexOf(b, c)
      case Some(j) => Some(|a| + j)
      case None => LastIndexOf(a, c)
    decreases |b|
  {
    if b == [] {
      assert a + b == a;
    } else {
      assert (a + b)[..|a + b| - 1] == a + b[..|b| - 1];
      LastIndexOfAppend(a, b[..|b| - 1], c);
    }
  }

  /** path / name in Boost.Filesystem: a separator is added between the
      two unless the directory is empty or already ends with one. */
  function Join(dir: string, name: string): (p: string)
    ensures |dir| + |name| <= |p| <= |dir| + 1 + |name|
    ensures p[..|dir|] == dir && p[|p| - |name|..] == name
    ensures dir != [] ==> p[|p| - |name| - 1] == '/'
  {
    if dir == [] || dir[|dir| - 1] == '/' then dir + name else dir + "/" + name
  }

  /** The three files of a sink in one directory are distinct. */
  lemma SinkFilesDistinct(dir: string)
    ensures Join(dir, "paths-quarks.db") != Join(dir, "values-quarks.db")
    ensures Join(dir, "paths-quarks.db") != Join(dir, "history")
    ensures Join(dir, "values-quarks.db") != Join(dir, "history")
  {
    assert |Join(dir, "paths-quarks.db")| + 1 == |Join(dir, "values-quarks.db")|;
    assert |Join(dir, "history")| < |Join(dir, "paths-quarks.db")|;
  }

  /** The name joined to a directory is the joined path's last component. */
  lemma LastComponentOfJoin(dir: string, name: string)
    requires '/' !in name
    ensures LastComponent(Join(dir, name)) == name
  {
    if dir == [] {
      assert Join(dir, name) == name;
    } else if dir[|dir| - 1] == '/' {
      LastComponentAfterSeparator(dir, name);
    } else {
      assert (dir + "/")[|dir|] == '/';
      LastComponentAfterSeparator(dir + "/", name);
    }
  }
}
