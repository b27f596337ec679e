/** Windows path joining, as `os.path.join` (ntpath) does it for a relative
    second component without a drive. */
module WinPath {

  type Path = string

  const Sep: char := '\\'

  predicate IsSep(c: char) { c == '\\' || c == '/' }

  /** A bare drive such as "C:" takes no separator before the next component. */
  predicate NeedsSep(a: Path) {
    |a| > 0 && !IsSep(a[|a| - 1]) && !(|a| == 2 && a[1] == ':')
  }

  /** `os.path.join(a, b)` for a relative `b`. */
  function Join(a: Path, b: string): Path
  {
    if NeedsSep(a) then a + [Sep] + b else a + b
  }

  /** The joined path ends with the component and is longer than it
      whenever the directory is not empty. */
  lemma JoinEndsWith(a: Path, b: string)
    ensures |Join(a, b)| >= |b| && Join(a, b)[|Join(a, b)| - |b|..] == b
    ensures |a| > 0 ==> |Join(a, b)| > |b|
  {
  }
}
