/** The POSIX path operations cuesplit uses (`os.sep == '/'`, `os.altsep is None`, `os.extsep == '.'`). */
module Paths {

  const Sep: char := '/'
  const ExtSep: string := "."

  predicate Absolute(p: string) {
    |p| > 0 && p[0] == Sep
  }

  /**
   * `posixpath.join(a, b)`: an absolute `b` replaces `a`; otherwise `b` follows `a`, with one separator
   * added unless `a` is empty or already ends with one.
   */
  function PathJoin(a: string, b: string): (r: string)
    ensures Absolute(b) ==> r == b
    ensures !Absolute(b) ==> |a| + |b| <= |r| <= |a| + |b| + 1 && r[..|a|] == a && r[|r| - |b|..] == b
    ensures !Absolute(b) && a != "" && a[|a| - 1] != Sep ==> r == a + [Sep] + b
  {
    if Absolute(b) then b
    else if a == "" || a[|a| - 1] == Sep then a + b
    else a + [Sep] + b
  }
}
