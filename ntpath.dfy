/**
 * `os.path.join` and `os.path.basename` as they behave on Windows (the clipper starts
 * its process with a Windows-only creation flag, so the program runs there).
 * Only second components without a drive or a root are joined here.
 */
module NtPath {

  predicate IsSep(c: char) {
    c == '\\' || c == '/'
  }

  predicate NoSep(s: string) {
    forall i | 0 <= i < |s| :: !IsSep(s[i])
  }

  /** A leading drive letter such as `C:`; a leading separator is a root instead. */
  predicate HasDrive(p: string) {
    |p| >= 2 && !IsSep(p[0]) && p[1] == ':'
  }

  /** A bare drive such as `C:`: joining onto it adds no separator. */
  predicate IsDriveOnly(dir: string) {
    |dir| == 2 && HasDrive(dir)
  }

  /**
   * `os.path.join(dir, name)`: `name` placed inside `dir`, with a backslash between
   * them exactly when `dir` is neither empty, nor ends with a separator, nor a bare drive.
   */
  function Join(dir: string, name: string): (p: string)
    ensures p == dir + name || p == dir + "\\" + name
    ensures p == dir + name <==> dir == [] || IsSep(dir[|dir| - 1]) || IsDriveOnly(dir)
    ensures |p| - |name| >= 0 && p[|p| - |name|..] == name
    ensures |dir| <= |p| && p[..|dir|] == dir
  {
    if dir == [] || IsSep(dir[|dir| - 1]) || IsDriveOnly(dir) then dir + name
    else
      var p := dir + "\\" + name;
      assert |p| != |dir + name|;
      p
  }

  /** What follows the last separator. */
  function Tail(p: string): (r: string)
    ensures NoSep(r)
    ensures |r| <= |p| && r == p[|p| - |r|..]
    ensures |r| < |p| ==> IsSep(p[|p| - |r| - 1])
    decreases |p|
  {
    if p == [] || IsSep(p[|p| - 1]) then [] else Tail(p[..|p| - 1]) + [p[|p| - 1]]
  }

  /**
   * `os.path.basename(p)`: the end of `p` after its last separator, and after its drive
   * when it has no separator.
   */
  function Basename(p: string): (r: string)
    ensures NoSep(r)
    ensures |r| <= |p| && r == p[|p| - |r|..]
    ensures |r| < |p| ==> IsSep(p[|p| - |r| - 1]) || (HasDrive(p) && |r| == |p| - 2)
    ensures HasDrive(p) ==> |r| <= |p| - 2
  {
    if HasDrive(p) then
      var r := Tail(p[2..]);
      assert p[2..][|p[2..]| - |r|..] == p[|p| - |r|..];
      r
    else Tail(p)
  }

  lemma {:induction false} TailAfterSep(prefix: string, name: string)
    requires NoSep(name)
    requires prefix == [] || IsSep(prefix[|prefix| - 1])
    ensures Tail(prefix + name) == name
    decreases |name|
  {
    var p := prefix + name;
    if name == [] {
      assert p == prefix;
    } else {
      var init, last := name[..|name| - 1], name[|name| - 1];
      assert p[..|p| - 1] == prefix + init && p[|p| - 1] == last;
      assert !IsSep(last) && NoSep(init);
      TailAfterSep(prefix, init);
      TailStep(p);
      assert init + [last] == name;
    }
  }

  /** A path not ending in a separator keeps its last character in its tail. */
  lemma TailStep(p: string)
    requires p != [] && !IsSep(p[|p| - 1])
    ensures Tail(p) == Tail(p[..|p| - 1]) + [p[|p| - 1]]
  {
  }

  /** The base name of a joined path is the name that was joined. */
  lemma BasenameJoin(dir: string, name: string)
    requires NoSep(name) && ':' !in name
    ensures Basename(Join(dir, name)) == name
  {
    var p := Join(dir, name);
    var sep := if p == dir + name then "" else "\\";
    var pre := dir + sep;
    assert p == pre + name;
    if HasDrive(p) {
      assert |dir| >= 2 && p[..2] == dir[..2];
      assert HasDrive(dir);
      assert p[2..] == pre[2..] + name;
      assert pre[2..] == [] || IsSep(pre[|pre| - 1]);
      TailAfterSep(pre[2..], name);
    } else {
      assert pre == [] || IsSep(pre[|pre| - 1]);
      TailAfterSep(pre, name);
    }
  }
}
