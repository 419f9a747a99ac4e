/**
 * Path strings as the size service and the decoration provider see them
 * (`uri.path`): the last segment, the parent, joining a child name, and the
 * chain of ancestors that the invalidation walk visits.
 * The path string is also the key of both maps of the size service.
 */
module Paths {

  /** Index of the last '/' in `p`, or -1 when `p` has none. */
  function LastSlash(p: string): (i: int)
    ensures -1 <= i < |p|
    ensures i >= 0 ==> p[i] == '/'
    ensures forall j :: i < j < |p| ==> p[j] != '/'
  {
    if |p| == 0 then -1
    else if p[|p| - 1] == '/' then |p| - 1
    else LastSlash(p[..|p| - 1])
  }

  /** The last element of `p.split("/")`: the text after the last '/'. */
  function LastSegment(p: string): (s: string)
    ensures s == p[LastSlash(p) + 1..]
    ensures '/' !in s
  {
    var s := p[LastSlash(p) + 1..];
    assert forall k :: 0 <= k < |s| ==> s[k] == p[LastSlash(p) + 1 + k];
    s
  }

  /**
   * The name of the file or folder a path denotes: the last '/'-segment,
   * or the whole path when that segment is empty (a path ending in '/',
   * the root, or the empty path).
   */
  function Basename(p: string): (b: string)
    ensures b == p <==> ('/' !in p || p[|p| - 1] == '/')
    ensures b != p ==> b != "" && '/' !in b && |b| < |p| && p[|p| - |b| - 1] == '/' && b == p[|p| - |b|..]
  {
    var s := LastSegment(p);
    if s == [] then
      assert '/' in p ==> p[|p| - 1] == '/';
      p
    else
      assert p[|p| - 1] != '/';
      assert '/' in p ==> LastSlash(p) >= 0;
      s
  }

  /**
   * The parent path: `p` with its last "/segment" removed, or "/" when that
   * leaves nothing. A path without '/' is its own parent, except the empty
   * path, whose parent is "/".
   */
  function Parent(p: string): (q: string)
    ensures p == "" ==> q == "/"
    ensures '/' !in p && p != "" ==> q == p
    ensures '/' in p && LastSlash(p) == 0 ==> q == "/"
    ensures '/' in p && LastSlash(p) > 0 ==> q == p[..LastSlash(p)]
  {
    var i := LastSlash(p);
    var stripped := if i < 0 then p else p[..i];
    if stripped == "" then "/" else stripped
  }

  /** Where `p` stands in the walk towards the root: every real step to a parent lowers it. */
  function Rank(p: string): nat
  {
    if p == "" then 2 else |p|
  }

  lemma ParentLowersRank(p: string)
    ensures Parent(p) != p ==> Rank(Parent(p)) < Rank(p)
  {
  }

  /**
   * The paths the invalidation walk visits from `p`: `p`, its parent, the
   * parent's parent, and so on, stopping at the first path that is its own parent.
   */
  function AncestorChain(p: string): (c: seq<string>)
    ensures |c| >= 1 && c[0] == p
    decreases Rank(p)
  {
    ParentLowersRank(p);
    if Parent(p) == p then [p] else [p] + AncestorChain(Parent(p))
  }

  /** Each element of the chain is the parent of the one before, and the last one is its own parent. */
  lemma {:induction false} ChainLinks(p: string)
    ensures var c := AncestorChain(p);
      (forall i :: 0 <= i < |c| - 1 ==> c[i + 1] == Parent(c[i])) && Parent(c[|c| - 1]) == c[|c| - 1]
    decreases Rank(p)
  {
    ParentLowersRank(p);
    if Parent(p) != p {
      ChainLinks(Parent(p));
    }
  }

  /** Every later element of the chain has a smaller rank than `p`. */
  lemma {:induction false} ChainRanksBelow(p: string)
    ensures forall i :: 0 < i < |AncestorChain(p)| ==> Rank(AncestorChain(p)[i]) < Rank(p)
    decreases Rank(p)
  {
    ParentLowersRank(p);
    if Parent(p) != p {
      ChainRanksBelow(Parent(p));
    }
  }

  /** The chain never visits a path twice: the `seen` guard of the walk never fires. */
  lemma {:induction false} ChainNoDuplicates(p: string)
    ensures forall i, j :: 0 <= i < j < |AncestorChain(p)| ==> AncestorChain(p)[i] != AncestorChain(p)[j]
    decreases Rank(p)
  {
    ParentLowersRank(p);
    if Parent(p) != p {
      ChainNoDuplicates(Parent(p));
      ChainRanksBelow(Parent(p));
      var c := AncestorChain(p);
      var tail := AncestorChain(Parent(p));
      assert c == [p] + tail;
      forall i, j | 0 <= i < j < |c| ensures c[i] != c[j] {
        assert c[j] == tail[j - 1];
        if i == 0 {
          assert Rank(tail[j - 1]) <= Rank(Parent(p));
          assert c[i] == p;
        } else {
          assert c[i] == tail[i - 1];
          assert tail[i - 1] != tail[j - 1];
        }
      }
    }
  }

  /** One step of the walk at position `k` of the chain: where it goes next, and that it is new. */
  lemma ChainStep(p: string, k: nat)
    requires k < |AncestorChain(p)|
    ensures var c := AncestorChain(p);
      c[k] !in c[..k] &&
      (Parent(c[k]) == c[k] <==> k == |c| - 1) &&
      (k < |c| - 1 ==> c[k + 1] == Parent(c[k]))
  {
    var c := AncestorChain(p);
    ChainLinks(p);
    ChainNoDuplicates(p);
    forall j | 0 <= j < k ensures c[..k][j] != c[k] {
      assert c[..k][j] == c[j];
    }
    if k < |c| - 1 {
      assert c[k + 1] != c[k];
    }
  }

  /** The parent of an absolute path is absolute. */
  lemma ParentOfAbsolute(p: string)
    requires |p| > 0 && p[0] == '/'
    ensures |Parent(p)| > 0 && Parent(p)[0] == '/'
  {
    assert '/' in p;
  }

  /** From an absolute path the walk ends at the root "/". */
  lemma {:induction false} ChainEndsAtRoot(p: string)
    requires |p| > 0 && p[0] == '/'
    ensures AncestorChain(p)[|AncestorChain(p)| - 1] == "/"
    decreases Rank(p)
  {
    ParentLowersRank(p);
    ParentOfAbsolute(p);
    if Parent(p) != p {
      ChainEndsAtRoot(Parent(p));
    } else {
      assert '/' in p;
      assert Parent(p) == "/";
    }
  }

  /** The path of child `name` inside `dir` (Uri.joinPath, without '.'/'..' normalisation). */
  function Join(dir: string, name: string): (p: string)
    ensures dir <= p && |p| <= |dir| + 1 + |name|
    ensures |p| > |name| && p[|p| - |name| - 1] == '/' && p[|p| - |name|..] == name
  {
    var sep := if |dir| > 0 && dir[|dir| - 1] == '/' then "" else "/";
    var p := dir + sep + name;
    assert p[|p| - |name|..] == name;
    p
  }

  /** The basename of a joined child path is the child's own name. */
  lemma BasenameOfJoin(dir: string, name: string)
    requires name != "" && '/' !in name
    ensures Basename(Join(dir, name)) == name
  {
    var p := Join(dir, name);
    var k := |p| - |name| - 1;
    forall j | k < j < |p| ensures p[j] != '/' {
      assert p[j] == name[j - k - 1];
    }
    assert LastSlash(p) == k;
    assert LastSegment(p) == name;
  }

  /**
   * The parent of a joined child path is the directory it was joined to:
   * the invalidation walk from a listed child reaches its directory first.
   */
  lemma ParentOfJoin(dir: string, name: string)
    requires Canonical(dir) && name != "" && '/' !in name
    ensures Parent(Join(dir, name)) == dir
  {
    var p := Join(dir, name);
    var k := |p| - |name| - 1;
    forall j | k < j < |p| ensures p[j] != '/' {
      assert p[j] == name[j - k - 1];
    }
    assert LastSlash(p) == k;
    if dir == "/" {
      assert k == 0;
    } else {
      assert k == |dir|;
      assert p[..k] == dir;
    }
  }

  /** Number of '/' characters in `p`. */
  function SlashCount(p: string): nat
  {
    if p == "" then 0 else SlashCount(p[..|p| - 1]) + (if p[|p| - 1] == '/' then 1 else 0)
  }

  /**
   * An absolute path in canonical form: it starts with '/', and every '/'
   * is followed by a non-empty segment (no "//", no trailing '/'), or it is "/".
   */
  predicate Canonical(p: string)
  {
    p == "/" ||
    (|p| >= 2 && p[0] == '/' && p[|p| - 1] != '/' &&
     forall i :: 0 <= i < |p| - 1 && p[i] == '/' ==> p[i + 1] != '/')
  }

  /** The depth of a canonical path below the root: the number of its segments. */
  function Depth(p: string): nat
  {
    if p == "/" then 0 else SlashCount(p)
  }

  /** Cutting a path at its last '/' removes exactly one slash. */
  lemma {:induction false} SlashCountAtLast(p: string, i: nat)
    requires i < |p| && p[i] == '/'
    requires forall j :: i < j < |p| ==> p[j] != '/'
    ensures SlashCount(p) == SlashCount(p[..i]) + 1
    decreases |p|
  {
    var init := p[..|p| - 1];
    if i < |p| - 1 {
      assert init[..i] == p[..i];
      SlashCountAtLast(init, i);
    } else {
      assert init == p[..i];
    }
  }

  /** A path without any '/' has slash count zero. */
  lemma {:induction false} SlashCountNone(p: string)
    requires '/' !in p
    ensures SlashCount(p) == 0
    decreases |p|
  {
    if p != "" {
      assert p[..|p| - 1] <= p;
      SlashCountNone(p[..|p| - 1]);
    }
  }

  /** The parent of a canonical path below the root is canonical and one level higher. */
  lemma ParentOfCanonical(p: string)
    requires Canonical(p) && p != "/"
    ensures Canonical(Parent(p)) && Depth(Parent(p)) + 1 == Depth(p)
  {
    var i := LastSlash(p);
    assert p[0] == '/';
    assert i >= 0;
    SlashCountAtLast(p, i);
    if i == 0 {
      assert Parent(p) == "/";
      SlashCountNone(p[..0]);
    } else {
      var q := p[..i];
      assert Parent(p) == q;
      assert p[i - 1] != '/';
      assert i >= 2;
      assert q != "/";
      forall k | 0 <= k < |q| - 1 && q[k] == '/' ensures q[k + 1] != '/' {
        assert p[k] == '/';
      }
    }
  }

  /** The walk from a canonical path visits exactly depth + 1 paths, the root included. */
  lemma {:induction false} ChainLength(p: string)
    requires Canonical(p)
    ensures |AncestorChain(p)| == Depth(p) + 1
    decreases Rank(p)
  {
    if p == "/" {
      assert Parent(p) == p;
    } else {
      ParentOfCanonical(p);
      ParentLowersRank(p);
      assert Parent(p) != p;
      ChainLength(Parent(p));
    }
  }

  /** The paths in `uris`, as a set of keys. */
  function Elements(uris: seq<string>): (s: set<string>)
    ensures forall u :: u in s <==> u in uris
  {
    set u | u in uris
  }

  lemma ElementsSnoc(uris: seq<string>, u: string)
    ensures Elements(uris + [u]) == Elements(uris) + {u}
  {
  }
}
