/**
 * The temporary directory the pipeline writes into, as a value: either absent
 * or present with the names of the files in it, in the order `os.listdir`
 * reports them (taken here to be the order they were created). The removal
 * of one file may fail, as the operating system decides: that outcome is an
 * input, `removeOk`.
 */
module Workspace {

  datatype Dir = Absent | Present(names: seq<string>)

  /** A directory lists each name at most once. */
  predicate NoDup(names: seq<string>) {
    forall i, j :: 0 <= i < j < |names| ==> names[i] != names[j]
  }

  /**
   * Writing the file `name` into the directory: a new name is listed after the
   * existing ones; writing an existing name overwrites that file in place, so
   * the listing grows by one exactly when the name is new and never lists a
   * name twice.
   */
  function AddFile(names: seq<string>, name: string): (r: seq<string>)
    ensures forall x :: x in r <==> x in names || x == name
    ensures |names| <= |r| && r[..|names|] == names
    ensures |r| == |names| + (if name in names then 0 else 1)
  {
    if name in names then names else names + [name]
  }

  /** Writing a file never makes the listing name a file twice. */
  lemma AddFileKeepsNoDup(names: seq<string>, name: string)
    requires NoDup(names)
    ensures NoDup(AddFile(names, name))
  {
  }

  /** The names of the temporary directory after `create_temp_dir`, which creates it when missing. */
  function CreateTempDir(d: Dir): (names: seq<string>)
    ensures d.Absent? ==> names == []
    ensures d.Present? ==> names == d.names
  {
    match d
    case Absent => []
    case Present(names) => names
  }

  /** Creating the temporary directory a second time changes nothing. */
  lemma CreateTempDirIdempotent(d: Dir)
    ensures CreateTempDir(Present(CreateTempDir(d))) == CreateTempDir(d)
  {
  }

  /**
   * The position of the first listed file whose removal fails, or the length of
   * the listing when every removal succeeds.
   */
  function FirstRemovalFailure(names: seq<string>, removeOk: string -> bool): (k: nat)
    ensures k <= |names|
    ensures forall j :: 0 <= j < k ==> removeOk(names[j])
    ensures k < |names| ==> !removeOk(names[k])
  {
    if names == [] || !removeOk(names[0]) then 0
    else 1 + FirstRemovalFailure(names[1..], removeOk)
  }

  /**
   * The directory after the `finally` block of `main`. A missing directory makes
   * `os.listdir` raise, which is swallowed. Otherwise the listed files are removed
   * in order; the first failing removal raises, which ends the loop and skips
   * the `rmdir`, so that file and all after it stay. When every removal succeeds
   * the directory is empty and is removed.
   */
  function AfterCleanup(d: Dir, removeOk: string -> bool): Dir {
    match d
    case Absent => Absent
    case Present(names) =>
      var k := FirstRemovalFailure(names, removeOk);
      if k == |names| then Absent else Present(names[k..])
  }

  /**
   * The cleanup loop of `main`'s `finally` block. Every error it meets is
   * swallowed: the method always returns, with the directory as it was left.
   */
  method Cleanup(d: Dir, removeOk: string -> bool) returns (r: Dir)
    ensures r == AfterCleanup(d, removeOk)
  {
    if d.Absent? {
      return Absent;
    }
    var listing := d.names;
    var remaining := listing;
    var i := 0;
    while i < |listing|
      invariant 0 <= i <= |listing|
      invariant remaining == listing[i..]
      invariant forall j :: 0 <= j < i ==> removeOk(listing[j])
    {
      if !removeOk(listing[i]) {
        return Present(remaining);
      }
      remaining := remaining[1..];
      i := i + 1;
    }
    // Every listed file is gone, so the directory is empty and `rmdir` removes it.
    r := Absent;
  }

  /**
   * The directory is gone after cleanup exactly when it was already gone or
   * every file in it could be removed.
   */
  lemma CleanupRemovesDirIff(d: Dir, removeOk: string -> bool)
    ensures AfterCleanup(d, removeOk) == Absent <==>
      (d.Absent? || forall x :: x in d.names ==> removeOk(x))
  {
    if d.Present? {
      var k := FirstRemovalFailure(d.names, removeOk);
      if k < |d.names| {
        assert d.names[k] in d.names;
      } else {
        forall x | x in d.names ensures removeOk(x) {
          var j :| 0 <= j < |d.names| && d.names[j] == x;
        }
      }
    }
  }

  /**
   * When cleanup leaves the directory behind, what remains is a tail of the
   * listing that starts at a file whose removal failed, and every file listed
   * before it was removed.
   */
  lemma CleanupLeavesFailedTail(d: Dir, removeOk: string -> bool)
    requires AfterCleanup(d, removeOk).Present?
    ensures d.Present?
    ensures var rest := AfterCleanup(d, removeOk).names;
      var k := |d.names| - |rest|;
      0 <= k < |d.names| && rest == d.names[k..] && !removeOk(rest[0]) &&
      forall j :: 0 <= j < k ==> removeOk(d.names[j])
  {
  }

  /**
   * A file whose removal fails is still there afterwards, and so is the
   * directory: the loop stops at it or at an earlier failure.
   */
  lemma FailedRemovalKeepsFile(names: seq<string>, removeOk: string -> bool, x: string)
    requires x in names && !removeOk(x)
    ensures AfterCleanup(Present(names), removeOk).Present?
    ensures x in AfterCleanup(Present(names), removeOk).names
  {
    var k := FirstRemovalFailure(names, removeOk);
    var j :| 0 <= j < |names| && names[j] == x;
    assert k <= j;
    assert names[j] == names[k..][j - k];
  }

  /**
   * A second cleanup with the same removal outcomes changes nothing: the file
   * that could not be removed fails again. (A removal that fails once may
   * succeed on a retry; that is a different `removeOk`.)
   */
  lemma {:induction false} CleanupIdempotent(d: Dir, removeOk: string -> bool)
    ensures AfterCleanup(AfterCleanup(d, removeOk), removeOk) == AfterCleanup(d, removeOk)
  {
    var once := AfterCleanup(d, removeOk);
    if once.Present? {
      CleanupLeavesFailedTail(d, removeOk);
      assert FirstRemovalFailure(once.names, removeOk) == 0;
    }
  }
}
