/** The two POSIX path operations `download_media` relies on:
    `os.path.join`, to root the output template in the download directory,
    and `os.path.splitext`, to swap the extension of the audio file. */
module Paths {
  import opened Strings

  const Sep: char := '/'
  const ExtSep: char := '.'

  /** `posixpath.join(a, b)` for two components. */
  function Join(a: string, b: string): string {
    if StartsWith(b, [Sep]) then b
    else if a == [] || EndsWith(a, [Sep]) then a + b
    else a + [Sep] + b
  }

  /** A relative component is placed under the directory: the result starts
      with the directory, ends with the component, and between the two
      there is one separator exactly when the directory does not already
      end with one. */
  lemma JoinUnder(a: string, b: string)
    requires !StartsWith(b, [Sep])
    ensures StartsWith(Join(a, b), a) && EndsWith(Join(a, b), b)
    ensures |Join(a, b)| == |a| + |b| + (if a == [] || EndsWith(a, [Sep]) then 0 else 1)
    ensures a != [] && !EndsWith(a, [Sep]) ==> Join(a, b)[|a|] == Sep
  {
    var r := Join(a, b);
    if a == [] || EndsWith(a, [Sep]) {
      assert r == a + b;
      assert r[..|a|] == a && r[|r| - |b|..] == b;
    } else {
      assert r == a + [Sep] + b;
      assert r[..|a|] == a && r[|r| - |b|..] == b;
    }
  }

  /** `str.rfind(c)`: the index of the last occurrence of `c`, or -1. */
  function LastIndex(s: string, c: char): (i: int)
    ensures -1 <= i < |s|
    ensures i >= 0 ==> s[i] == c
    ensures forall j :: i < j < |s| ==> s[j] != c
  {
    if |s| == 0 then -1
    else if s[|s| - 1] == c then |s| - 1
    else LastIndex(s[..|s| - 1], c)
  }

  /** True when `s[lo..hi]` holds a character other than the extension
      separator: the filename is not a run of leading dots. */
  predicate HasNonDot(s: string, lo: int, hi: int)
    requires 0 <= lo <= hi <= |s|
  {
    exists k :: lo <= k < hi && s[k] != ExtSep
  }

  /** `posixpath.splitext(p)`: split at the last dot when that dot lies in
      the final component and is preceded there by something other than
      dots; otherwise there is no extension. */
  function Splitext(p: string): (r: (string, string))
    ensures r.0 + r.1 == p
    ensures r.1 == [] || (r.1[0] == ExtSep && ExtSep !in r.1[1..] && Sep !in r.1)
    ensures r.1 != [] ==> NamedLastComponent(r.0)
  {
    var sep := LastIndex(p, Sep);
    var dot := LastIndex(p, ExtSep);
    if dot > sep && HasNonDot(p, sep + 1, dot) then
      assert p[..dot] + p[dot..] == p;
      assert forall j :: 0 <= j < |p[dot..]| ==> p[dot..][j] == p[dot + j];
      PrefixKeepsName(p, dot);
      (p[..dot], p[dot..])
    else
      (p, [])
  }

  /** The last component of `p` (after the last separator) contains a
      character other than a dot. */
  predicate NamedLastComponent(p: string) {
    HasNonDot(p, LastIndex(p, Sep) + 1, |p|)
  }

  lemma LastIndexAppend(s: string, t: string, c: char)
    requires c !in t
    ensures LastIndex(s + t, c) == LastIndex(s, c)
  {
    var i := LastIndex(s + t, c);
    var j := LastIndex(s, c);
    assert forall k :: 0 <= k < |s| ==> (s + t)[k] == s[k];
    assert forall k :: |s| <= k < |s + t| ==> (s + t)[k] == t[k - |s|];
  }

  /** Appending a new extension to a name whose last component is named
      makes that extension the one `splitext` finds. */
  lemma SplitextOfAppended(root: string, ext: string)
    requires NamedLastComponent(root)
    requires ext != [] && ext[0] == ExtSep && ExtSep !in ext[1..] && Sep !in ext
    ensures Splitext(root + ext) == (root, ext)
  {
    var p := root + ext;
    var sep := LastIndex(p, Sep);
    LastIndexAppend(root, ext, Sep);
    assert sep == LastIndex(root, Sep);
    var dot := LastIndex(p, ExtSep);
    assert p[|root|] == ExtSep;
    assert forall j :: |root| < j < |p| ==> p[j] == ext[j - |root|];
    assert forall j :: 1 <= j < |ext| ==> ext[j] == ext[1..][j - 1];
    assert dot == |root|;
    var k :| sep + 1 <= k < |root| && root[k] != ExtSep;
    assert p[k] == root[k];
    assert HasNonDot(p, sep + 1, dot);
    assert p[..dot] == root && p[dot..] == ext;
  }

  /** Cutting a path after a character of its last component that is not a
      dot leaves a path whose last component is named. */
  lemma PrefixKeepsName(p: string, dot: int)
    requires LastIndex(p, Sep) < dot <= |p|
    requires HasNonDot(p, LastIndex(p, Sep) + 1, dot)
    ensures NamedLastComponent(p[..dot])
  {
    var sep := LastIndex(p, Sep);
    LastIndexPrefix(p, dot, Sep);
    var k :| sep + 1 <= k < dot && p[k] != ExtSep;
    assert p[..dot][k] == p[k];
  }

  /** Cutting a string after its last `c` does not move the last `c`. */
  lemma LastIndexPrefix(s: string, n: int, c: char)
    requires LastIndex(s, c) < n <= |s|
    ensures LastIndex(s[..n], c) == LastIndex(s, c)
  {
    var i := LastIndex(s[..n], c);
    var j := LastIndex(s, c);
    if j >= 0 {
      assert s[..n][j] == c;
    }
    if i >= 0 {
      assert s[i] == c;
    }
  }

  /** The stem `splitext` returns keeps a named last component. */
  lemma StemKeepsName(p: string)
    requires NamedLastComponent(p)
    ensures NamedLastComponent(Splitext(p).0)
  {
  }

  /** A name whose last component is only dots after its start, such as
      `.bashrc` or `dir/..x`, has no extension: leading dots belong to the
      stem. */
  lemma LeadingDotsNoExtension(p: string)
    requires forall k :: LastIndex(p, Sep) < k < LastIndex(p, ExtSep) ==> p[k] == ExtSep
    ensures Splitext(p) == (p, [])
  {
  }

  lemma ExampleDotfile()
    ensures Splitext(".bashrc") == (".bashrc", "")
  {
    LeadingDotsNoExtension(".bashrc");
  }
}
