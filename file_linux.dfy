/**
 * A model of the path helpers of the Linux SystemAbstractions::File:
 * the executable's parent directory, cut out of the resolved path of
 * `/proc/self/exe` in place in a C character buffer, and the two paths
 * joined onto a directory with a `sprintf`-style "%s/%s" and "%s/.%s".
 *
 * The operating system's answers (`realpath`, the home directory) are
 * parameters. C strings end at the first NUL; `%s` and `std::string(char*)`
 * both stop there.
 */
module FilePaths {

  /** The size of the buffer `realpath` writes into. */
  const PATH_MAX: nat := 4096

  /** `strlen`: the index of the first NUL, or the whole length when there is none. */
  function StrLen(s: seq<char>): (n: nat)
    ensures n <= |s|
    ensures forall j :: 0 <= j < n ==> s[j] != '\0'
    ensures n < |s| ==> s[n] == '\0'
  {
    if s == [] then 0 else if s[0] == '\0' then 0 else 1 + StrLen(s[1..])
  }

  /** The string a C character buffer holds: everything before the first NUL. */
  function CString(s: seq<char>): (r: string)
    ensures '\0' !in r
    ensures '\0' !in s ==> r == s
  {
    s[..StrLen(s)]
  }

  /** A buffer whose first NUL is at `n` holds the first `n` characters. */
  lemma {:induction false} StrLenAt(s: seq<char>, n: nat)
    requires n < |s| && s[n] == '\0'
    requires forall j :: 0 <= j < n ==> s[j] != '\0'
    ensures StrLen(s) == n
    decreases n
  {
    if n > 0 {
      StrLenAt(s[1..], n - 1);
    }
  }

  /**
   * Where the backwards scan stops when it examines index `n` next: the
   * last `/` at an index between 1 and `n`, or 0 when there is none.
   */
  function ScanBack(p: string, n: nat): (k: nat)
    requires n < |p|
    ensures k <= n
    ensures k > 0 ==> p[k] == '/'
    ensures forall j :: k < j <= n ==> p[j] != '/'
  {
    if n == 0 then 0 else if p[n] == '/' then n else ScanBack(p, n - 1)
  }

  /**
   * The length the parent directory is cut to: the scan's stop, or 1 if it
   * ran down to 0. Everything from there on holds no `/` but the one cut at.
   */
  function ParentLength(p: string): (n: nat)
    requires |p| > 0
    ensures 1 <= n <= |p|
    ensures n == 1 || (n < |p| && p[n] == '/')
    ensures forall j :: n < j < |p| ==> p[j] != '/'
    ensures (exists j :: 0 < j < |p| && p[j] == '/') ==> n < |p| && p[n] == '/'
  {
    var k := ScanBack(p, |p| - 1);
    if k == 0 then 1 else k
  }

  /** What `GetExeParentDirectory` returns for the resolved executable path `p`. */
  function ParentOf(p: string): (r: string)
    requires |p| > 0
    ensures 1 <= |r| <= |p| && r == p[..|r|]
  {
    p[..ParentLength(p)]
  }

  /**
   * With its last `/` at index `k > 0`, a path's parent is everything before
   * that `/`: the final component and its separator are dropped.
   */
  lemma ParentAtLastSlash(p: string, k: nat)
    requires 0 < k < |p| && p[k] == '/'
    requires forall j :: k < j < |p| ==> p[j] != '/'
    ensures ParentOf(p) == p[..k]
  {
  }

  /**
   * With no `/` past its first character, a path's parent is that first
   * character: "/" for an absolute path such as "/exe" or "/".
   */
  lemma ParentWithoutSlash(p: string)
    requires |p| > 0
    requires forall j :: 0 < j < |p| ==> p[j] != '/'
    ensures ParentOf(p) == p[..1]
    ensures p[0] == '/' ==> ParentOf(p) == "/"
  {
  }

  /**
   * `GetExeParentDirectory`, given what `realpath` resolves `/proc/self/exe`
   * to: the path is put in a buffer of `PATH_MAX` characters, `length` runs
   * back from the last character to the last `/` after the first one (or to
   * 0, then 1), a NUL is written there, and the buffer is read back as a
   * string.
   */
  method GetExeParentDirectory(resolved: string) returns (directory: string)
    requires 0 < |resolved| < PATH_MAX && '\0' !in resolved
    ensures directory == ParentOf(resolved)
  {
    var buffer := new char[PATH_MAX](_ => '\0');
    forall i | 0 <= i < |resolved| {
      buffer[i] := resolved[i];
    }
    StrLenAt(buffer[..], |resolved|);
    var length: nat := StrLen(buffer[..]);
    length := length - 1;
    while length > 0
      invariant length < |resolved|
      invariant ScanBack(resolved, length) == ScanBack(resolved, |resolved| - 1)
      decreases length
    {
      if buffer[length] == '/' {
        break;
      }
      length := length - 1;
    }
    if length == 0 {
      length := length + 1;
    }
    buffer[length] := '\0';
    StrLenAt(buffer[..], length);
    directory := CString(buffer[..]);
    assert directory == buffer[..length] == resolved[..length];
  }

  /** `GetResourceFilePath` on the parent directory: "%s/%s". */
  function ResourceFilePath(exeParentDirectory: string, name: string): (path: string)
    ensures '\0' !in exeParentDirectory && '\0' !in name ==> path == exeParentDirectory + "/" + name
  {
    CString(exeParentDirectory) + "/" + CString(name)
  }

  /** `GetLocalPerUserConfigDirectory` on the home directory: "%s/.%s". */
  function LocalPerUserConfigDirectory(userHomeDirectory: string, nameKey: string): (path: string)
    ensures '\0' !in userHomeDirectory && '\0' !in nameKey ==> path == userHomeDirectory + "/." + nameKey
  {
    CString(userHomeDirectory) + "/." + CString(nameKey)
  }

  /**
   * A resource named without a `/` sits directly in the executable's
   * directory: the parent of its path is that directory again.
   */
  lemma ResourceInParent(directory: string, name: string)
    requires |directory| > 0 && '\0' !in directory && '\0' !in name && '/' !in name
    ensures ParentOf(ResourceFilePath(directory, name)) == directory
  {
    var p := ResourceFilePath(directory, name);
    assert p[|directory|] == '/';
    forall j | |directory| < j < |p|
      ensures p[j] != '/'
    {
      assert p[j] == name[j - |directory| - 1];
    }
    ParentAtLastSlash(p, |directory|);
    assert p[..|directory|] == directory;
  }

  /**
   * A configuration key without a `/` names a hidden entry directly in the
   * home directory: the parent of its path is the home directory, and the
   * entry's name is the key behind a dot.
   */
  lemma ConfigInHome(home: string, nameKey: string)
    requires |home| > 0 && '\0' !in home && '\0' !in nameKey && '/' !in nameKey
    ensures ParentOf(LocalPerUserConfigDirectory(home, nameKey)) == home
    ensures LocalPerUserConfigDirectory(home, nameKey)[|home| + 1..] == "." + nameKey
  {
    var p := LocalPerUserConfigDirectory(home, nameKey);
    assert p[|home|] == '/' && p[|home| + 1] == '.';
    forall j | |home| < j < |p|
      ensures p[j] != '/'
    {
      if j > |home| + 1 {
        assert p[j] == nameKey[j - |home| - 2];
      }
    }
    ParentAtLastSlash(p, |home|);
    assert p[..|home|] == home;
  }

  /**
   * `GetResourceFilePath` as the source composes it: the parent directory,
   * then the join, where `%s` reads `name` only up to its first NUL.
   */
  method GetResourceFilePath(resolved: string, name: string) returns (path: string)
    requires 0 < |resolved| < PATH_MAX && '\0' !in resolved
    ensures path == ParentOf(resolved) + "/" + CString(name)
    ensures '\0' !in name ==> path == ParentOf(resolved) + "/" + name
  {
    var directory := GetExeParentDirectory(resolved);
    assert '\0' !in directory by {
      assert directory == resolved[..|directory|];
    }
    path := ResourceFilePath(directory, name);
  }
}
