/** The binary-extension helpers, one per build platform. */
module OsExec {

  /** The two build targets: Linux and macOS share one file, Windows has its own. */
  datatype Platform = Unix | Windows

  /** The filename extension of executables. */
  function Ext(p: Platform): (r: string)
    ensures p.Unix? ==> r == []
    ensures p.Windows? ==> r == ".exe"
  {
    match p
    case Unix => ""
    case Windows => ".exe"
  }

  predicate EndsWith(s: string, suffix: string)
  {
    |suffix| <= |s| && s[|s| - |suffix|..] == suffix
  }

  /** Removes one trailing executable extension, as strings.TrimSuffix does on
      Windows; on Unix the filename is returned unaltered. */
  function TrimExt(p: Platform, filename: string): (r: string)
    ensures EndsWith(filename, Ext(p)) ==> r + Ext(p) == filename
    ensures !EndsWith(filename, Ext(p)) ==> r == filename
  {
    match p
    case Unix => filename
    case Windows =>
      if EndsWith(filename, ".exe") then filename[..|filename| - 4] else filename
  }

  /** Trimming undoes appending the extension, on both platforms. */
  lemma TrimExtOfExt(p: Platform, s: string)
    ensures TrimExt(p, s + Ext(p)) == s
  {
    assert EndsWith(s + Ext(p), Ext(p));
  }

  /** On Unix trimming is the identity, hence idempotent. */
  lemma UnixTrimExtIdentity(s: string)
    ensures TrimExt(Unix, s) == s
    ensures TrimExt(Unix, TrimExt(Unix, s)) == TrimExt(Unix, s)
  {
  }

  /** On Windows exactly one trailing ".exe" is removed, so trimming is not idempotent. */
  lemma WindowsTrimsOnce()
    ensures TrimExt(Windows, "a.exe.exe") == "a.exe"
    ensures TrimExt(Windows, "a.exe") == "a"
    ensures TrimExt(Windows, "kubectl") == "kubectl"
  {
    assert "a.exe.exe"[9 - 4..] == ".exe";
    assert "a.exe"[5 - 4..] == ".exe";
  }
}
