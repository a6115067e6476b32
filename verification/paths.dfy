/**
 * Path and file-name formatting used by the pipeline: Python's `str(n)` on a
 * non-negative integer, POSIX `os.path.join` of two components, and the name
 * `video_chunk_{i}.mp4` under which chunk `i` is written.
 */
module Paths {

  /** The decimal digit character for `d`. */
  function DigitChar(d: nat): (c: char)
    requires d < 10
    ensures '0' <= c <= '9'
    ensures c as int - '0' as int == d
  {
    ('0' as int + d) as char
  }

  predicate IsDigits(s: string) {
    forall i :: 0 <= i < |s| ==> '0' <= s[i] <= '9'
  }

  /** Python's `str(n)` for a non-negative integer: decimal, no leading zeros. */
  function NatToString(n: nat): (s: string)
    ensures |s| >= 1 && IsDigits(s)
    decreases n
  {
    if n < 10 then [DigitChar(n)] else NatToString(n / 10) + [DigitChar(n % 10)]
  }

  /** Reads a decimal digit string back (Python's `int(s)` on digits). */
  function StringToNat(s: string): nat
    requires IsDigits(s)
  {
    if s == [] then 0
    else 10 * StringToNat(s[..|s| - 1]) + (s[|s| - 1] as int - '0' as int)
  }

  /** Reading back what `NatToString` wrote gives the number again. */
  lemma {:induction false} StringToNatInverse(n: nat)
    ensures StringToNat(NatToString(n)) == n
  {
    var s := NatToString(n);
    if n < 10 {
      assert s[..|s| - 1] == [];
    } else {
      StringToNatInverse(n / 10);
      assert s[..|s| - 1] == NatToString(n / 10);
    }
  }

  /** Distinct numbers print differently. */
  lemma NatToStringInjective(i: nat, j: nat)
    requires NatToString(i) == NatToString(j)
    ensures i == j
  {
    StringToNatInverse(i);
    StringToNatInverse(j);
  }

  /** A path component that `os.path.join` does not treat as absolute. */
  predicate IsRelative(name: string) {
    name == [] || name[0] != '/'
  }

  /**
   * POSIX `os.path.join(dir, name)`: an absolute `name` replaces `dir`;
   * otherwise a `/` is inserted unless `dir` is empty or already ends in one.
   */
  function Join(dir: string, name: string): string {
    if !IsRelative(name) then name
    else if dir == [] || dir[|dir| - 1] == '/' then dir + name
    else dir + "/" + name
  }

  /**
   * The text `Join` puts in front of a relative name: `dir` itself, followed by
   * a `/` unless it is empty or already ends in one.
   */
  function JoinPrefix(dir: string): (prefix: string)
    ensures |dir| <= |prefix| <= |dir| + 1 && prefix[..|dir|] == dir
    ensures prefix == [] || prefix[|prefix| - 1] == '/'
  {
    if dir == [] || dir[|dir| - 1] == '/' then dir else dir + "/"
  }

  /**
   * What `Join` computes: an absolute name on its own, and a relative name
   * after `dir` and, unless `dir` is empty or ends in one, a `/`. (Stated as a
   * lemma rather than on `Join` itself, so that proofs mentioning many joined
   * paths do not carry these facts for each of them.)
   */
  lemma JoinSpec(dir: string, name: string)
    ensures !IsRelative(name) ==> Join(dir, name) == name
    ensures IsRelative(name) ==> Join(dir, name) == JoinPrefix(dir) + name
  {
  }

  /** Joining two different relative names onto one directory gives different paths. */
  lemma JoinInjective(dir: string, a: string, b: string)
    requires IsRelative(a) && IsRelative(b)
    requires Join(dir, a) == Join(dir, b)
    ensures a == b
  {
    JoinSpec(dir, a);
    JoinSpec(dir, b);
    var p := JoinPrefix(dir);
    assert a == (p + a)[|p|..];
    assert b == (p + b)[|p|..];
  }

  /** The file name of chunk `i`: `video_chunk_{i}.mp4`. */
  function ChunkName(i: nat): (name: string)
    ensures IsRelative(name)
  {
    "video_chunk_" + NatToString(i) + ".mp4"
  }

  /** Different chunk indices give different file names. */
  lemma ChunkNameInjective(i: nat, j: nat)
    requires ChunkName(i) == ChunkName(j)
    ensures i == j
  {
    var a, b := NatToString(i), NatToString(j);
    assert |a| == |b|;
    assert a == ChunkName(i)[12..12 + |a|];
    assert b == ChunkName(j)[12..12 + |b|];
    NatToStringInjective(i, j);
  }

  /**
   * The paths written for two different chunk indices under one directory are
   * different, so no chunk overwrites another.
   */
  lemma ChunkPathsDistinct(dir: string, i: nat, j: nat)
    requires i != j
    ensures Join(dir, ChunkName(i)) != Join(dir, ChunkName(j))
  {
    if Join(dir, ChunkName(i)) == Join(dir, ChunkName(j)) {
      JoinInjective(dir, ChunkName(i), ChunkName(j));
      ChunkNameInjective(i, j);
    }
  }
}
