/** The folder path a tile file is stored under (`_getEnclosingFolders`). */
module Folders {

  /**
   * `s.substring(a, b)` for `a <= b`: indices past the end are clamped to the
   * length of `s`.
   */
  function Substring(s: string, a: nat, b: nat): (r: string)
    requires a <= b
    ensures b <= |s| ==> r == s[a..b]
    ensures a <= |s| <= b ==> r == s[a..]
    ensures |s| <= a ==> r == ""
  {
    var lo := if a <= |s| then a else |s|;
    var hi := if b <= |s| then b else |s|;
    s[lo..hi]
  }

  /** Folder `i` of a file name: `r` and two digits for the first, three digits after that. */
  function Folder(name: string, i: nat): (r: string)
    requires 3 * i + 2 <= |name|
    ensures |r| == 4
  {
    if i == 0 then "r" + Substring(name, 0, 2) + "/" else Substring(name, 3 * i - 1, 3 * i + 2) + "/"
  }

  /** The first `k` folders, in the order the loop appends them. */
  function FolderList(name: string, k: nat): (fs: seq<string>)
    requires 3 * k <= |name|
    ensures |fs| == k
  {
    if k == 0 then [] else FolderList(name, k - 1) + [Folder(name, k - 1)]
  }

  lemma {:induction false} FolderListAt(name: string, k: nat, i: nat)
    requires 3 * k <= |name| && i < k
    ensures FolderList(name, k)[i] == Folder(name, i)
  {
    if i < k - 1 {
      FolderListAt(name, k - 1, i);
    }
  }

  /** The strings of `parts` appended in order. */
  function Join(parts: seq<string>): string
  {
    if |parts| == 0 then "" else Join(parts[..|parts| - 1]) + parts[|parts| - 1]
  }

  lemma JoinSnoc(parts: seq<string>, s: string)
    ensures Join(parts + [s]) == Join(parts) + s
  {
    assert (parts + [s])[..|parts|] == parts;
  }

  lemma {:induction false} JoinLength(parts: seq<string>)
    requires forall j :: 0 <= j < |parts| ==> |parts[j]| == 4
    ensures |Join(parts)| == 4 * |parts|
  {
    if |parts| > 0 {
      JoinLength(parts[..|parts| - 1]);
    }
  }

  /** Joining four-character parts puts part `i` at characters `[4i, 4i + 4)`. */
  lemma {:induction false} JoinAt(parts: seq<string>, i: nat)
    requires forall j :: 0 <= j < |parts| ==> |parts[j]| == 4
    requires i < |parts|
    ensures |Join(parts)| == 4 * |parts|
    ensures Join(parts)[4 * i..4 * i + 4] == parts[i]
  {
    JoinLength(parts);
    var init := parts[..|parts| - 1];
    var last := parts[|parts| - 1];
    JoinLength(init);
    if i < |parts| - 1 {
      JoinAt(init, i);
      SliceOfLeft(Join(init), last, 4 * i, 4 * i + 4);
    } else {
      SliceOfRight(Join(init), last);
    }
  }

  lemma SliceOfLeft(p: string, q: string, a: nat, b: nat)
    requires a <= b <= |p|
    ensures (p + q)[a..b] == p[a..b]
  {
  }

  lemma SliceOfRight(p: string, q: string)
    ensures (p + q)[|p|..|p| + |q|] == q
  {
  }

  /**
   * One folder per complete group of three digits in the file name: the first
   * is `r` and the name's first two digits, each later one the next three digits.
   */
  function EnclosingFolders(name: string): (f: string)
    ensures |f| == 4 * (|name| / 3)
    ensures |name| < 3 ==> f == ""
    ensures |name| >= 3 ==> f[..4] == "r" + name[..2] + "/"
    ensures forall i :: 1 <= i < |name| / 3 ==> f[4 * i..4 * i + 4] == name[3 * i - 1..3 * i + 2] + "/"
  {
    var k := |name| / 3;
    var fs := FolderList(name, k);
    AllFoursLong(name, k);
    JoinLength(fs);
    assert forall i :: 1 <= i < k ==> Join(fs)[4 * i..4 * i + 4] == name[3 * i - 1..3 * i + 2] + "/" by {
      forall i | 1 <= i < k
        ensures Join(fs)[4 * i..4 * i + 4] == name[3 * i - 1..3 * i + 2] + "/"
      {
        JoinAt(fs, i);
        FolderListAt(name, k, i);
      }
    }
    if k >= 1 then
      JoinAt(fs, 0);
      FolderListAt(name, k, 0);
      assert Join(fs)[..4] == Join(fs)[4 * 0..4 * 0 + 4];
      Join(fs)
    else
      Join(fs)
  }

  lemma AllFoursLong(name: string, k: nat)
    requires 3 * k <= |name|
    ensures forall j :: 0 <= j < k ==> |FolderList(name, k)[j]| == 4
  {
    forall j | 0 <= j < k
      ensures |FolderList(name, k)[j]| == 4
    {
      FolderListAt(name, k, j);
    }
  }

  /** Reads the digits back out of a folder path: drops the leading `r` and every fourth character. */
  function FolderDigits(f: string): string
  {
    if |f| < 4 then "" else f[1..3] + GroupDigits(f[4..])
  }

  function GroupDigits(g: string): string
  {
    if |g| < 4 then "" else g[..3] + GroupDigits(g[4..])
  }

  /** Parsing groups of four splits over a concatenation at a group boundary. */
  lemma {:induction false} GroupDigitsAppend(a: string, b: string)
    requires |a| % 4 == 0
    ensures GroupDigits(a + b) == GroupDigits(a) + GroupDigits(b)
  {
    if |a| > 0 {
      assert (a + b)[..3] == a[..3];
      assert (a + b)[4..] == a[4..] + b;
      GroupDigitsAppend(a[4..], b);
    } else {
      assert a + b == b;
    }
  }

  lemma FolderDigitsAppend(f: string, g: string)
    requires |f| >= 4 && |f| % 4 == 0
    ensures FolderDigits(f + g) == FolderDigits(f) + GroupDigits(g)
  {
    assert (f + g)[1..3] == f[1..3];
    assert (f + g)[4..] == f[4..] + g;
    GroupDigitsAppend(f[4..], g);
  }

  lemma GroupDigitsOfFolder(name: string, i: nat)
    requires 1 <= i && 3 * i + 2 <= |name|
    ensures GroupDigits(Folder(name, i)) == name[3 * i - 1..3 * i + 2]
  {
    assert Folder(name, i)[4..] == "";
  }

  lemma FolderDigitsOfFirst(name: string)
    requires 2 <= |name|
    ensures FolderDigits(Folder(name, 0)) == name[..2]
  {
    assert Folder(name, 0)[4..] == "";
  }

  lemma PrefixSplit(s: string, a: nat, b: nat)
    requires a <= b <= |s|
    ensures s[..a] + s[a..b] == s[..b]
  {
  }

  /**
   * The first `k >= 1` folders hold the first `3k - 1` digits of the name,
   * each exactly once and in order: the groups are contiguous and disjoint.
   */
  lemma {:induction false} FolderListDigits(name: string, k: nat)
    requires 1 <= k && 3 * k <= |name|
    ensures FolderDigits(Join(FolderList(name, k))) == name[..3 * k - 1]
  {
    if k == 1 {
      JoinSnoc([], Folder(name, 0));
      FolderDigitsOfFirst(name);
    } else {
      FolderListDigits(name, k - 1);
      var fs := FolderList(name, k - 1);
      JoinSnoc(fs, Folder(name, k - 1));
      AllFoursLong(name, k - 1);
      JoinLength(fs);
      GroupDigitsOfFolder(name, k - 1);
      ExtendDigits(Join(fs), Folder(name, k - 1), name, 3 * k - 4, 3 * k - 1);
    }
  }

  lemma ExtendDigits(f: string, g: string, name: string, a: nat, b: nat)
    requires |f| >= 4 && |f| % 4 == 0 && a <= b <= |name|
    requires FolderDigits(f) == name[..a] && GroupDigits(g) == name[a..b]
    ensures FolderDigits(f + g) == name[..b]
  {
    FolderDigitsAppend(f, g);
    PrefixSplit(name, a, b);
  }

  /** The folder path of a name carries exactly its first `3k - 1` digits, where `k = |name| / 3`. */
  lemma FolderDigitsArePrefix(name: string)
    ensures var k := |name| / 3;
            FolderDigits(EnclosingFolders(name)) == if k == 0 then "" else name[..3 * k - 1]
  {
    if |name| / 3 >= 1 {
      FolderListDigits(name, |name| / 3);
    }
  }

  /**
   * `rABCDEFG.jpg` is stored under `rAB/CDE/`; `rABCDE.jpg` only under `rAB/`, since
   * its trailing digits never form a folder.
   */
  lemma ExampleFolders()
    ensures EnclosingFolders("ABCDEFG") == "rAB/CDE/"
    ensures EnclosingFolders("ABCDE") == "rAB/"
  {
    var g := EnclosingFolders("ABCDE");
    assert g == g[..4];
    var f := EnclosingFolders("ABCDEFG");
    assert f[..4] == "rAB/";
    assert f[4 * 1..4 * 1 + 4] == "ABCDEFG"[3 * 1 - 1..3 * 1 + 2] + "/";
    assert "ABCDEFG"[2..5] == "CDE";
    assert f[4..8] == "CDE/";
    assert f == f[..4] + f[4..8];
  }
}
