/** Directory trees as finite maps, and what storing files and making directories does to them. */
module Trees {
  type Path = seq<string>

  /** A directory, or a file with its bytes, modification time and executable bit. */
  datatype Node = Dir | File(data: seq<int>, time: int, exec: bool)

  type Tree = map<Path, Node>

  function Parent(p: Path): Path
    requires p != []
  {
    p[..|p| - 1]
  }

  /** Every entry other than those at the top lies in a directory of the tree. */
  ghost predicate Closed(t: Tree) {
    forall p :: p in t ==> p != [] && (|p| > 1 ==> Parent(p) in t && t[Parent(p)].Dir?)
  }

  /** No path is a file in one tree and a directory in the other. */
  ghost predicate NoClash(s: Tree, t: Tree) {
    forall p :: p in s && p in t ==> s[p].Dir? == t[p].Dir?
  }

  /** Makes a directory and the missing ones above it; a file in the way stops it silently. */
  function EnsureDir(t: Tree, p: Path): Tree
    decreases |p|
  {
    if p == [] || p in t then t
    else
      var up := EnsureDir(t, Parent(p));
      if |p| == 1 || (Parent(p) in up && up[Parent(p)].Dir?) then up[p := Dir] else up
  }

  /** The nonempty prefixes of a path, itself included. */
  function UpTo(p: Path): set<Path> {
    set k | 1 <= k <= |p| :: p[..k]
  }

  function Above(p: Path): set<Path> {
    UpTo(p) - {p}
  }

  /** The directories that must exist for the paths to be stored. */
  function AllAbove(ps: set<Path>): set<Path> {
    set p, q | p in ps && q in Above(p) :: q
  }

  function AllUpTo(ps: set<Path>): set<Path> {
    set p, q | p in ps && q in UpTo(p) :: q
  }

  /** The tree with `put` stored over it and directories `made` where nothing else is. */
  function Overlay(t: Tree, put: Tree, made: set<Path>): Tree {
    map q | q in t.Keys + put.Keys + made :: if q in put then put[q] else if q in t then t[q] else Dir
  }

  /**
   The tree with `put` stored over it and the directories `dirs` made, whatever
   the order: new files bring the directories above them.
   */
  function Merge(t: Tree, put: Tree, dirs: set<Path>): Tree {
    Overlay(t, put, AllAbove(put.Keys - t.Keys) + AllUpTo(dirs))
  }

  lemma OverlayMake(t: Tree, put: Tree, made: set<Path>, extra: set<Path>)
    ensures var m := Overlay(t, put, made);
            m + (map q | q in extra - m.Keys :: Dir) == Overlay(t, put, made + extra)
  {
  }

  lemma OverlayPut(t: Tree, put: Tree, made: set<Path>, p: Path, n: Node)
    ensures Overlay(t, put, made)[p := n] == Overlay(t, put[p := n], made)
  {
  }

  lemma UpToStep(p: Path)
    requires p != []
    ensures UpTo(p) == UpTo(Parent(p)) + {p}
    ensures Above(p) == UpTo(Parent(p))
  {
    var d := Parent(p);
    forall q | q in UpTo(p) ensures q in UpTo(d) + {p} {
      var k :| 1 <= k <= |p| && q == p[..k];
      if k < |p| {
        assert q == d[..k];
      } else {
        assert q == p;
      }
    }
    forall q | q in UpTo(d) ensures q in UpTo(p) && q != p {
      var k :| 1 <= k <= |d| && q == d[..k];
      assert q == p[..k];
    }
    assert p == p[..|p|];
  }

  /** All directories above an entry of a closed tree are directories of it. */
  lemma {:induction false} ClosedAbove(t: Tree, p: Path)
    requires Closed(t) && p in t
    ensures forall q :: q in Above(p) ==> q in t && t[q].Dir?
    decreases |p|
  {
    UpToStep(p);
    if |p| > 1 {
      ClosedAbove(t, Parent(p));
      UpToStep(Parent(p));
    } else {
      assert UpTo(Parent(p)) == {};
    }
  }

  /** Making a directory with no file in the way adds exactly the missing ones. */
  lemma {:induction false} EnsureDirAdds(t: Tree, p: Path)
    requires Closed(t) && forall q :: q in UpTo(p) && q in t ==> t[q].Dir?
    ensures EnsureDir(t, p) == t + map q | q in UpTo(p) - t.Keys :: Dir
    decreases |p|
  {
    hide UpTo;
    if p == [] {
      SelfUpTo(p);
      assert EnsureDir(t, p) == t + map q | q in UpTo(p) - t.Keys :: Dir;
    } else {
      UpToStep(p);
      var d := Parent(p);
      SelfUpTo(d);
      if p in t {
        ClosedAbove(t, p);
        assert UpTo(p) - t.Keys == {};
        assert EnsureDir(t, p) == t + map q | q in UpTo(p) - t.Keys :: Dir;
      } else {
        EnsureDirAdds(t, d);
        var up := EnsureDir(t, d);
        assert |p| == 1 || (d in up && up[d].Dir?);
        assert up[p := Dir] == t + map q | q in UpTo(p) - t.Keys :: Dir;
      }
    }
  }

  lemma SelfUpTo(p: Path)
    ensures if p == [] then UpTo(p) == {} else p in UpTo(p)
  {
    assert p == p[..|p|];
  }

  /**
   `put` and `dirs` come from the files and directories of a closed tree `s` that
   does not clash with `t`.
   */
  ghost predicate Comes(s: Tree, t: Tree, put: Tree, dirs: set<Path>) {
    && Closed(s) && Closed(t) && NoClash(s, t)
    && (forall p :: p in put ==> p in s && s[p].File? && put[p].File?)
    && (forall d :: d in dirs ==> d in s && s[d].Dir?)
  }

  /** What a merge holds at a directory of the tree it draws on. */
  lemma MergeDirs(s: Tree, t: Tree, put: Tree, dirs: set<Path>, q: Path)
    requires Comes(s, t, put, dirs) && q in s && s[q].Dir?
    ensures q in Merge(t, put, dirs) ==> Merge(t, put, dirs)[q].Dir?
  {
  }

  lemma MadeAreDirs(s: Tree, t: Tree, put: Tree, dirs: set<Path>, q: Path)
    requires Comes(s, t, put, dirs) && q in AllAbove(put.Keys) + AllUpTo(dirs)
    ensures q in s && s[q].Dir?
  {
    if q in AllAbove(put.Keys) {
      var p :| p in put.Keys && q in Above(p);
      ClosedAbove(s, p);
    } else {
      var d :| d in dirs && q in UpTo(d);
      ClosedAbove(s, d);
    }
  }

  lemma MergeClosed(s: Tree, t: Tree, put: Tree, dirs: set<Path>)
    requires Comes(s, t, put, dirs)
    ensures Closed(Merge(t, put, dirs))
  {
    var m := Merge(t, put, dirs);
    forall q | q in m ensures q != [] && (|q| > 1 ==> Parent(q) in m && m[Parent(q)].Dir?) {
      if q !in t {
        assert q in s by {
          if q !in put {
            MadeAreDirs(s, t, put, dirs, q);
          }
        }
      }
      if |q| > 1 {
        var d := Parent(q);
        UpToStep(q);
        SelfUpTo(d);
        if q in t {
          assert d !in put;
        } else {
          MergeParent(s, t, put, dirs, q);
          MergeDirs(s, t, put, dirs, d);
        }
      }
    }
  }

  lemma MergeParent(s: Tree, t: Tree, put: Tree, dirs: set<Path>, q: Path)
    requires Comes(s, t, put, dirs) && q in Merge(t, put, dirs) && q !in t && |q| > 1
    ensures Parent(q) in Merge(t, put, dirs) && Parent(q) in s && s[Parent(q)].Dir?
  {
    var d := Parent(q);
    UpToStep(q);
    SelfUpTo(d);
    if q in put {
      assert d in AllAbove(put.Keys - t.Keys);
    } else if q in AllAbove(put.Keys - t.Keys) {
      var p :| p in put.Keys - t.Keys && q in Above(p);
      AboveAbove(q, p);
      assert d in AllAbove(put.Keys - t.Keys);
      assert q in AllAbove(put.Keys);
      MadeAreDirs(s, t, put, dirs, q);
    } else {
      var p :| p in dirs && q in UpTo(p);
      AboveAbove(q, p);
      assert d in AllUpTo(dirs);
      MadeAreDirs(s, t, put, dirs, q);
    }
  }

  lemma AboveAbove(q: Path, p: Path)
    requires q in UpTo(p) && |q| > 1
    ensures Parent(q) in Above(p)
  {
    var k :| 1 <= k <= |p| && q == p[..k];
    assert Parent(q) == p[..k - 1];
  }

  /** Replacing an entry of the tree merges one more file. */
  lemma MergeReplace(t: Tree, put: Tree, dirs: set<Path>, p: Path, n: Node)
    requires p in t
    ensures Merge(t, put, dirs)[p := n] == Merge(t, put[p := n], dirs)
  {
    assert put[p := n].Keys - t.Keys == put.Keys - t.Keys;
  }

  /** No file of the merge is in the way of a directory of the tree it draws on. */
  lemma MergePassable(s: Tree, t: Tree, put: Tree, dirs: set<Path>, d: Path)
    requires Comes(s, t, put, dirs) && forall q :: q in UpTo(d) ==> q in s && s[q].Dir?
    ensures var m := Merge(t, put, dirs);
            EnsureDir(m, d) == m + map q | q in UpTo(d) - m.Keys :: Dir
  {
    hide Overlay, AllAbove, AllUpTo;
    var m := Merge(t, put, dirs);
    MergeClosed(s, t, put, dirs);
    forall q | q in UpTo(d) && q in m ensures m[q].Dir? {
      MergeDirs(s, t, put, dirs, q);
    }
    EnsureDirAdds(m, d);
  }

  /** Storing a new file, the directories above it first, merges one more file. */
  lemma MergeStore(s: Tree, t: Tree, put: Tree, dirs: set<Path>, p: Path, n: Node)
    requires Comes(s, t, put, dirs) && p in s && s[p].File? && n.File? && p !in t
    ensures EnsureDir(Merge(t, put, dirs), Parent(p))[p := n] == Merge(t, put[p := n], dirs)
  {
    hide Overlay, EnsureDir, AllUpTo, UpTo;
    UpToStep(p);
    ClosedAbove(s, p);
    MergePassable(s, t, put, dirs, Parent(p));
    var put' := put[p := n];
    var made := AllAbove(put.Keys - t.Keys) + AllUpTo(dirs);
    OverlayMake(t, put, made, UpTo(Parent(p)));
    OverlayPut(t, put, made + UpTo(Parent(p)), p, n);
    assert put'.Keys - t.Keys == (put.Keys - t.Keys) + {p};
    AllAboveGrows(put.Keys - t.Keys, p);
    assert AllAbove(put'.Keys - t.Keys) + AllUpTo(dirs) == made + UpTo(Parent(p));
  }

  lemma AllAboveGrows(ps: set<Path>, p: Path)
    ensures AllAbove(ps + {p}) == AllAbove(ps) + Above(p)
  {
  }

  lemma AllUpToGrows(ps: set<Path>, p: Path)
    ensures AllUpTo(ps + {p}) == AllUpTo(ps) + UpTo(p)
  {
  }

  /** Making one more directory. */
  lemma MergeMake(s: Tree, t: Tree, put: Tree, dirs: set<Path>, d: Path)
    requires Comes(s, t, put, dirs) && d in s && s[d].Dir?
    ensures EnsureDir(Merge(t, put, dirs), d) == Merge(t, put, dirs + {d})
  {
    hide Overlay, EnsureDir, AllUpTo, AllAbove, UpTo;
    ClosedAbove(s, d);
    MergePassable(s, t, put, dirs, d);
    var above := AllAbove(put.Keys - t.Keys);
    OverlayMake(t, put, above + AllUpTo(dirs), UpTo(d));
    AllUpToGrows(dirs, d);
    assert above + AllUpTo(dirs) + UpTo(d) == above + AllUpTo(dirs + {d});
  }
}

/**
 The bidirectional sync of a staging mount, local files winning: two trees merged
 by loops over their listings in whatever order the listings come.
 */
module MountSync {
  import opened Trees

  /**
   What the sync consults besides the trees: the temp-file test, the patterns of
   security-sensitive paths, whether those checks are switched off, the server's
   clock as the time stamp of each upload, and the local clock.
   */
  datatype Policy = Policy(temp: Path -> bool, sensitive: Path -> bool, dangerous: bool,
                           stamp: Path -> int, now: int)

  predicate ForbiddenByPath(pol: Policy, p: Path) {
    !pol.dangerous && pol.sensitive(p)
  }

  predicate Forbidden(pol: Policy, p: Path, n: Node) {
    !pol.dangerous && ((n.File? && n.exec) || pol.sensitive(p))
  }

  /** The listing of one side: everything that is not a temp file. */
  function Listed(pol: Policy, t: Tree): Tree {
    map p | p in t && !pol.temp(p) :: t[p]
  }

  predicate Differs(local: Node, remote: Node)
    requires local.File? && remote.File?
  {
    |local.data| != |remote.data| || local.time > remote.time
  }

  predicate Uploads(pol: Policy, l: Tree, r: Tree, p: Path) {
    && p in Listed(pol, l) && l[p].File? && !Forbidden(pol, p, l[p])
    && (p in r && r[p].File? ==> Differs(l[p], r[p]))
  }

  predicate Downloads(pol: Policy, l: Tree, r: Tree, p: Path) {
    p in Listed(pol, r) && r[p].File? && p !in Listed(pol, l) && !ForbiddenByPath(pol, p)
  }

  function UploadSet(pol: Policy, l: Tree, r: Tree): set<Path> {
    set p | p in l && Uploads(pol, l, r, p)
  }

  function DownloadSet(pol: Policy, l: Tree, r: Tree): set<Path> {
    set p | p in r && Downloads(pol, l, r, p)
  }

  function NewDirs(pol: Policy, l: Tree, r: Tree): set<Path> {
    set p | p in l && p in Listed(pol, l) && l[p].Dir? && p !in r
  }

  function Uploaded(pol: Policy, p: Path, n: Node): Node
    requires n.File?
  {
    File(n.data, pol.stamp(p), false)
  }

  /** A download keeps the remote time, unless that is unset. */
  function Downloaded(pol: Policy, n: Node): Node
    requires n.File?
  {
    File(n.data, if n.time == 0 then pol.now else n.time, false)
  }

  function Ups(pol: Policy, l: Tree, ps: set<Path>): Tree {
    map p | p in ps && p in l && l[p].File? :: Uploaded(pol, p, l[p])
  }

  function Downs(pol: Policy, r: Tree, ps: set<Path>): Tree {
    map p | p in ps && p in r && r[p].File? :: Downloaded(pol, r[p])
  }

  /** The two trees after an error-free sync, as functions of the trees before. */
  function RemoteAfter(pol: Policy, l: Tree, r: Tree): Tree {
    Merge(r, Ups(pol, l, UploadSet(pol, l, r)), NewDirs(pol, l, r))
  }

  function LocalAfter(pol: Policy, l: Tree, r: Tree): Tree {
    Merge(l, Downs(pol, r, DownloadSet(pol, l, r)), {})
  }

  // ----- the loops

  ghost predicate IsOrder(order: seq<Path>, t: Tree) {
    && (forall p :: p in order <==> p in t)
    && (forall i, j :: 0 <= i < j < |order| ==> order[i] != order[j])
  }

  function Done(order: seq<Path>, i: nat): set<Path>
    requires i <= |order|
  {
    set k | 0 <= k < i :: order[k]
  }

  /** One more path of the order, among those of interest. */
  lemma DoneStep(order: seq<Path>, i: nat, among: set<Path>)
    requires i < |order|
    ensures var ps := Done(order, i) * among;
            Done(order, i + 1) * among == if order[i] in among then ps + {order[i]} else ps
  {
  }

  lemma DoneAll(order: seq<Path>, t: Tree)
    requires IsOrder(order, t)
    ensures Done(order, |order|) == t.Keys
  {
    forall p | p in t.Keys ensures p in Done(order, |order|) {
      assert p in order;
    }
  }

  lemma DoneFresh(order: seq<Path>, t: Tree, i: nat)
    requires IsOrder(order, t) && i < |order|
    ensures order[i] !in Done(order, i) && order[i] in t
  {
    assert order[i] in order;
  }

  /** The trees are proper, and neither side has a file where the other has a directory. */
  ghost predicate Mountable(l: Tree, r: Tree) {
    Closed(l) && Closed(r) && NoClash(l, r)
  }

  lemma ListedClosedUps(pol: Policy, l: Tree, r: Tree, ps: set<Path>, dirs: set<Path>)
    requires Mountable(l, r) && dirs <= NewDirs(pol, l, r)
    ensures Comes(l, r, Ups(pol, l, ps), dirs)
  {
  }

  class Mount {
    var local: Tree
    var remote: Tree

    constructor (l: Tree, r: Tree)
      ensures local == l && remote == r
    {
      local, remote := l, r;
    }

    /** Creates a remote directory after its parents; an existing entry is left alone. */
    method EnsureRemoteDir(p: Path)
      modifies this`remote
      ensures remote == EnsureDir(old(remote), p)
      decreases |p|
    {
      if p == [] || p in remote {
        return;
      }
      EnsureRemoteDir(Parent(p));
      if |p| == 1 || (Parent(p) in remote && remote[Parent(p)].Dir?) {
        remote := remote[p := Dir];
      }
    }

    /** Uploads one file, after the directories above it when it is new there. */
    method UploadOne(pol: Policy, ghost r: Tree, ghost ps: set<Path>, p: Path, n: Node, present: bool)
      requires Mountable(local, r) && p in local && local[p] == n && n.File? && present == (p in r)
      requires remote == Merge(r, Ups(pol, local, ps), {})
      modifies this`remote
      ensures remote == Merge(r, Ups(pol, local, ps + {p}), {})
    {
      hide Merge, EnsureDir, Ups, Mountable;
      UploadStep(pol, local, r, ps, p);
      if !present {
        EnsureRemoteDir(Parent(p));
      }
      remote := remote[p := Uploaded(pol, p, n)];
    }

    /** Downloads one file into the directories above it. */
    method DownloadOne(pol: Policy, ghost l: Tree, ghost r: Tree, ghost ps: set<Path>, p: Path, n: Node)
      requires Mountable(l, r) && p in r && r[p] == n && n.File? && p !in l
      requires local == Merge(l, Downs(pol, r, ps), {})
      modifies this`local
      ensures local == Merge(l, Downs(pol, r, ps + {p}), {})
    {
      hide Merge, EnsureDir, Downs, Mountable;
      DownloadStep(pol, l, r, ps, p);
      local := EnsureDir(local, Parent(p))[p := Downloaded(pol, n)];
    }

    /** Uploads every listed local file that the remote side lacks or has differently. */
    method UploadAll(pol: Policy, ghost r: Tree, listed: Tree, order: seq<Path>, known: Tree) returns (uploaded: nat)
      requires Mountable(local, r) && remote == r
      requires listed == Listed(pol, local) && known == Listed(pol, r) && IsOrder(order, listed)
      modifies this`remote
      ensures remote == Merge(r, Ups(pol, local, UploadSet(pol, local, r)), {})
      ensures uploaded == |UploadSet(pol, local, r)|
    {
      hide Merge, EnsureDir, Ups, UploadSet, Done, IsOrder, Listed, Mountable, Forbidden, Differs, Comes, Uploads, Downloads, Closed, NoClash;
      uploaded := 0;
      ghost var all := UploadSet(pol, local, r);
      ghost var ps: set<Path> := {};
      NothingYet(pol, local, r, order, all);
      for i := 0 to |order|
        invariant ps == Done(order, i) * all
        invariant remote == Merge(r, Ups(pol, local, ps), {})
        invariant uploaded == |ps|
      {
        var p := order[i];
        DoneStep(order, i, all);
        DoneFresh(order, listed, i);
        var n := listed[p];
        WantedUp(pol, local, r, p);
        if n.File? && !Forbidden(pol, p, n) && !(p in known && known[p].File? && !Differs(n, known[p])) {
          UploadOne(pol, r, ps, p, n, p in known);
          uploaded := uploaded + 1;
          ps := ps + {p};
        }
      }
      DoneAll(order, listed);
      UploadsListed(pol, local, r);
      assert listed.Keys * all == all;
    }

    /** Downloads every listed remote file that is not listed locally. */
    method DownloadAll(pol: Policy, ghost l: Tree, ghost r: Tree, listed: Tree, known: Tree, order: seq<Path>) returns (downloaded: nat)
      requires Mountable(l, r) && local == l
      requires listed == Listed(pol, r) && known == Listed(pol, l) && IsOrder(order, listed)
      modifies this`local
      ensures local == LocalAfter(pol, l, r)
      ensures downloaded == |DownloadSet(pol, l, r)|
    {
      hide Merge, EnsureDir, Downs, DownloadSet, Done, IsOrder, Listed, Mountable, ForbiddenByPath, Comes, Uploads, Downloads, Closed, NoClash;
      downloaded := 0;
      ghost var all := DownloadSet(pol, l, r);
      ghost var ps: set<Path> := {};
      NothingYet(pol, l, r, order, all);
      for i := 0 to |order|
        invariant ps == Done(order, i) * all
        invariant local == Merge(l, Downs(pol, r, ps), {})
        invariant downloaded == |ps|
      {
        var p := order[i];
        DoneStep(order, i, all);
        DoneFresh(order, listed, i);
        var n := listed[p];
        WantedDown(pol, l, r, p);
        if n.File? && p !in known && !ForbiddenByPath(pol, p) {
          DownloadOne(pol, l, r, ps, p, n);
          downloaded := downloaded + 1;
          ps := ps + {p};
        }
      }
      DoneAll(order, listed);
      UploadsListed(pol, l, r);
      assert listed.Keys * all == all;
    }

    /** Creates the listed local directories that the remote side lacks. */
    method MakeDirs(pol: Policy, ghost l: Tree, ghost r: Tree, listed: Tree, known: Tree, order: seq<Path>)
      requires Mountable(l, r)
      requires remote == Merge(r, Ups(pol, l, UploadSet(pol, l, r)), {})
      requires listed == Listed(pol, l) && known == Listed(pol, r) && IsOrder(order, listed)
      modifies this`remote
      ensures remote == RemoteAfter(pol, l, r)
    {
      ghost var ups := Ups(pol, l, UploadSet(pol, l, r));
      ghost var ds: set<Path> := {};
      for i := 0 to |order|
        invariant ds == Done(order, i) * NewDirs(pol, l, r)
        invariant remote == Merge(r, ups, ds)
      {
        var p := order[i];
        DoneStep(order, i, NewDirs(pol, l, r));
        DoneFresh(order, listed, i);
        if listed[p].Dir? && p !in known {
          ListedClosedUps(pol, l, r, UploadSet(pol, l, r), ds);
          MergeMake(l, r, ups, ds, p);
          EnsureRemoteDir(p);
          ds := ds + {p};
        }
      }
      DoneAll(order, listed);
      assert ds == NewDirs(pol, l, r);
    }

    /** The whole sync, unless the user declines to merge very different trees. */
    method SyncBidirectional(pol: Policy, confirmed: bool,
                             uploadOrder: seq<Path>, downloadOrder: seq<Path>, dirOrder: seq<Path>)
      returns (aborted: bool, uploaded: nat, downloaded: nat)
      requires Mountable(local, remote)
      requires IsOrder(uploadOrder, Listed(pol, local)) && IsOrder(downloadOrder, Listed(pol, remote))
      requires IsOrder(dirOrder, Listed(pol, local))
      modifies this
      ensures aborted == (!confirmed && VeryDifferent(Listed(pol, old(local)), Listed(pol, old(remote))))
      ensures aborted ==> local == old(local) && remote == old(remote)
      ensures !aborted ==>
                && local == LocalAfter(pol, old(local), old(remote))
                && remote == RemoteAfter(pol, old(local), old(remote))
                && uploaded == |UploadSet(pol, old(local), old(remote))|
                && downloaded == |DownloadSet(pol, old(local), old(remote))|
    {
      var localFiles, remoteFiles := Listed(pol, local), Listed(pol, remote);
      var l, r := local, remote;
      uploaded, downloaded := 0, 0;
      aborted := !confirmed && VeryDifferent(localFiles, remoteFiles);
      if !aborted {
        uploaded := UploadAll(pol, r, localFiles, uploadOrder, remoteFiles);
        downloaded := DownloadAll(pol, l, r, remoteFiles, localFiles, downloadOrder);
        MakeDirs(pol, l, r, localFiles, remoteFiles, dirOrder);
      }
    }
  }

  /** Less than three tenths of all listed paths are on both sides. */
  predicate VeryDifferent(l: Tree, r: Tree) {
    var common := |l.Keys * r.Keys|;
    var union := |l| + |r| - common;
    union > 0 && |r| > 0 && 10 * common < 3 * union
  }

  /**
   The user is asked exactly when there is something remote and less than three
   tenths of all the paths are on both sides.
   */
  lemma AsksExactlyWhen(l: Tree, r: Tree)
    ensures VeryDifferent(l, r) <==> r != map[] && 10 * |l.Keys * r.Keys| < 3 * |l.Keys + r.Keys|
  {
    assert |l.Keys| == |l| && |r.Keys| == |r|;
    assert |l.Keys + r.Keys| == |l.Keys| + |r.Keys| - |l.Keys * r.Keys|;
    assert r == map[] <==> r.Keys == {};
    assert l.Keys + r.Keys == {} ==> r.Keys == {};
  }

  /** Equal trees never ask; trees without a common path ask unless there is nothing remote. */
  lemma AsksAtTheEnds(l: Tree, r: Tree)
    ensures l.Keys == r.Keys ==> !VeryDifferent(l, r)
    ensures l.Keys !! r.Keys ==> (VeryDifferent(l, r) <==> r != map[])
  {
    AsksExactlyWhen(l, r);
    assert l.Keys == r.Keys ==> l.Keys * r.Keys == l.Keys && l.Keys + r.Keys == l.Keys;
    assert l.Keys !! r.Keys ==> l.Keys * r.Keys == {};
    if r != map[] {
      var p :| p in r;
      assert p in l.Keys + r.Keys;
    }
  }

  lemma MergeNothing(t: Tree)
    ensures Merge(t, map[], {}) == t
  {
  }

  lemma NothingYet(pol: Policy, l: Tree, r: Tree, order: seq<Path>, all: set<Path>)
    ensures Done(order, 0) * all == {}
    ensures Merge(r, Ups(pol, l, {}), {}) == r && Merge(l, Downs(pol, r, {}), {}) == l
  {
    MergeNothing(l);
    MergeNothing(r);
    assert Ups(pol, l, {}) == map[] && Downs(pol, r, {}) == map[];
  }

  lemma WantedUp(pol: Policy, l: Tree, r: Tree, p: Path)
    requires p in Listed(pol, l)
    ensures p in l && !pol.temp(p) && Listed(pol, l)[p] == l[p]
    ensures p in Listed(pol, r) <==> p in r
    ensures p in r ==> Listed(pol, r)[p] == r[p]
    ensures p in UploadSet(pol, l, r) <==>
            l[p].File? && !Forbidden(pol, p, l[p]) && !(p in r && r[p].File? && !Differs(l[p], r[p]))
  {
  }

  lemma WantedDown(pol: Policy, l: Tree, r: Tree, p: Path)
    requires p in Listed(pol, r)
    ensures p in r && !pol.temp(p) && Listed(pol, r)[p] == r[p]
    ensures p in Listed(pol, l) <==> p in l
    ensures p in DownloadSet(pol, l, r) <==> r[p].File? && p !in l && !ForbiddenByPath(pol, p)
  {
  }

  lemma UploadsListed(pol: Policy, l: Tree, r: Tree)
    ensures UploadSet(pol, l, r) <= Listed(pol, l).Keys && DownloadSet(pol, l, r) <= Listed(pol, r).Keys
  {
  }

  lemma UploadStep(pol: Policy, l: Tree, r: Tree, ps: set<Path>, p: Path)
    requires Mountable(l, r) && p in l && l[p].File?
    ensures p != []
    ensures var m := Merge(r, Ups(pol, l, ps), {});
            (if p in r then m else EnsureDir(m, Parent(p)))[p := Uploaded(pol, p, l[p])]
            == Merge(r, Ups(pol, l, ps + {p}), {})
  {
    ListedClosedUps(pol, l, r, ps, {});
    UpsStep(pol, l, ps, p);
    if p in r {
      MergeReplace(r, Ups(pol, l, ps), {}, p, Uploaded(pol, p, l[p]));
    } else {
      MergeStore(l, r, Ups(pol, l, ps), {}, p, Uploaded(pol, p, l[p]));
    }
  }

  lemma DownloadStep(pol: Policy, l: Tree, r: Tree, ps: set<Path>, p: Path)
    requires Mountable(l, r) && p in r && r[p].File? && p !in l
    ensures p != []
    ensures EnsureDir(Merge(l, Downs(pol, r, ps), {}), Parent(p))[p := Downloaded(pol, r[p])]
            == Merge(l, Downs(pol, r, ps + {p}), {})
  {
    NoClashSymmetric(l, r);
    DownsStep(pol, r, ps, p);
    MergeStore(r, l, Downs(pol, r, ps), {}, p, Downloaded(pol, r[p]));
  }

  lemma UpsStep(pol: Policy, l: Tree, ps: set<Path>, p: Path)
    requires p in l && l[p].File?
    ensures Ups(pol, l, ps + {p}) == Ups(pol, l, ps)[p := Uploaded(pol, p, l[p])]
  {
  }

  lemma DownsStep(pol: Policy, r: Tree, ps: set<Path>, p: Path)
    requires p in r && r[p].File?
    ensures Downs(pol, r, ps + {p}) == Downs(pol, r, ps)[p := Downloaded(pol, r[p])]
  {
  }

  lemma NoClashSymmetric(l: Tree, r: Tree)
    requires NoClash(l, r)
    ensures NoClash(r, l)
  {
  }

  // ----- what a sync does and does not do

  lemma DownsDisjoint(pol: Policy, l: Tree, r: Tree)
    ensures Downs(pol, r, DownloadSet(pol, l, r)).Keys == DownloadSet(pol, l, r)
    ensures DownloadSet(pol, l, r) !! l.Keys
    ensures Ups(pol, l, UploadSet(pol, l, r)).Keys == UploadSet(pol, l, r)
  {
  }

  /** Where the two trees after a sync come from, path by path. */
  lemma LocalAfterAt(pol: Policy, l: Tree, r: Tree, p: Path)
    requires Mountable(l, r)
    ensures var l', downs := LocalAfter(pol, l, r), DownloadSet(pol, l, r);
            && (p in l ==> p in l' && l'[p] == l[p])
            && (p in downs ==> p in r && r[p].File? && p in l' && l'[p] == Downloaded(pol, r[p]))
            && (p in l' && p !in l && p !in downs ==> l'[p] == Dir && p in r && r[p].Dir?)
  {
    var downs := Downs(pol, r, DownloadSet(pol, l, r));
    DownsDisjoint(pol, l, r);
    NoClashSymmetric(l, r);
    assert Comes(r, l, downs, {});
    if p in LocalAfter(pol, l, r) && p !in l && p !in downs {
      assert p in AllAbove(downs.Keys);
      MadeAreDirs(r, l, downs, {}, p);
    }
  }

  lemma RemoteAfterAt(pol: Policy, l: Tree, r: Tree, p: Path)
    requires Mountable(l, r)
    ensures var r', ups := RemoteAfter(pol, l, r), UploadSet(pol, l, r);
            && (p in ups ==> p in l && l[p].File? && p in r' && r'[p] == Uploaded(pol, p, l[p]))
            && (p in r && p !in ups ==> p in r' && r'[p] == r[p])
            && (p in NewDirs(pol, l, r) ==> p in r')
            && (p in r' && p !in r && p !in ups ==> r'[p] == Dir && p in l && l[p].Dir?)
  {
    var ups, dirs := Ups(pol, l, UploadSet(pol, l, r)), NewDirs(pol, l, r);
    DownsDisjoint(pol, l, r);
    ListedClosedUps(pol, l, r, UploadSet(pol, l, r), dirs);
    if p in dirs {
      SelfUpTo(p);
      assert p in AllUpTo(dirs);
    }
    if p in RemoteAfter(pol, l, r) && p !in r && p !in ups {
      assert p in AllAbove(ups.Keys) + AllUpTo(dirs);
      MadeAreDirs(l, r, ups, dirs, p);
    }
  }

  /**
   A sync never changes or removes a local entry and never removes a remote entry.
   A local file that is neither temporary nor forbidden (executable or of a sensitive
   path, unless that is overridden) ends up on the server, as it is except where the
   server's file had its size and was not older; no other local file does. A remote
   file that is only there, and neither temporary nor of a sensitive path, ends up
   here with its time; no other one does.
   */
  lemma SyncKeeps(pol: Policy, l: Tree, r: Tree, p: Path)
    requires Mountable(l, r)
    ensures var l', r' := LocalAfter(pol, l, r), RemoteAfter(pol, l, r);
            var shared := p in l && l[p].File? && !pol.temp(p) && (pol.dangerous || !(l[p].exec || pol.sensitive(p)));
            var wanted := p in r && r[p].File? && !pol.temp(p) && (pol.dangerous || !pol.sensitive(p));
            && (p in l ==> p in l' && l'[p] == l[p])
            && (p in r ==> p in r')
            && (shared ==>
                  p in r' && r'[p] == if p in r && |l[p].data| == |r[p].data| && l[p].time <= r[p].time
                                      then r[p] else File(l[p].data, pol.stamp(p), false))
            && (!shared && p in r ==> r'[p] == r[p])
            && (!shared && p !in r && p in r' ==> r'[p] == Dir && p in l && l[p].Dir?)
            && (wanted && p !in l ==>
                  p in l' && l'[p] == File(r[p].data, if r[p].time == 0 then pol.now else r[p].time, false))
            && (!wanted && p !in l && p in l' ==> l'[p] == Dir && p in r && r[p].Dir?)
  {
    hide LocalAfter, RemoteAfter;
    LocalAfterAt(pol, l, r, p);
    RemoteAfterAt(pol, l, r, p);
  }

  lemma MountableAfter(pol: Policy, l: Tree, r: Tree)
    requires Mountable(l, r)
    ensures Mountable(LocalAfter(pol, l, r), RemoteAfter(pol, l, r))
  {
    hide Merge, Downs, Ups;
    var l', r' := LocalAfter(pol, l, r), RemoteAfter(pol, l, r);
    CleanSources(pol, l, r);
    MergeClosed(r, l, Downs(pol, r, DownloadSet(pol, l, r)), {});
    MergeClosed(l, r, Ups(pol, l, UploadSet(pol, l, r)), NewDirs(pol, l, r));
    forall p | p in l' && p in r' ensures l'[p].Dir? == r'[p].Dir? {
      LocalAfterAt(pol, l, r, p);
      RemoteAfterAt(pol, l, r, p);
    }
  }

  lemma CleanSources(pol: Policy, l: Tree, r: Tree)
    requires Mountable(l, r)
    ensures Comes(r, l, Downs(pol, r, DownloadSet(pol, l, r)), {})
    ensures Comes(l, r, Ups(pol, l, UploadSet(pol, l, r)), NewDirs(pol, l, r))
  {
    NoClashSymmetric(l, r);
  }

  /** Uploads are stamped no earlier than the local file, and downloads have a time to keep. */
  ghost predicate Settled(pol: Policy, l: Tree, r: Tree) {
    && (forall p :: p in UploadSet(pol, l, r) ==> l[p].time <= pol.stamp(p))
    && (forall p :: p in DownloadSet(pol, l, r) && r[p].time == 0 ==> pol.now <= 0)
  }

  /** What a second sync would upload: what the clocks make look newer than it is. */
  lemma RerunUploads(pol: Policy, l: Tree, r: Tree, p: Path)
    requires Mountable(l, r)
    ensures var l', r' := LocalAfter(pol, l, r), RemoteAfter(pol, l, r);
            && (Uploads(pol, l', r', p) <==>
                  || (p in UploadSet(pol, l, r) && l[p].time > pol.stamp(p))
                  || (p in DownloadSet(pol, l, r) && r[p].time == 0 && pol.now > 0))
            && !Downloads(pol, l', r', p)
            && (p in l' && l'[p].Dir? && !pol.temp(p) ==> p in r')
  {
    hide LocalAfter, RemoteAfter;
    LocalAfterAt(pol, l, r, p);
    RemoteAfterAt(pol, l, r, p);
  }

  /**
   A second sync transfers nothing exactly when the clocks are settled, and then
   it changes nothing at all.
   */
  lemma RerunTransfersNothing(pol: Policy, l: Tree, r: Tree)
    requires Mountable(l, r)
    ensures var l', r' := LocalAfter(pol, l, r), RemoteAfter(pol, l, r);
            && (UploadSet(pol, l', r') == {} && DownloadSet(pol, l', r') == {} <==> Settled(pol, l, r))
            && (Settled(pol, l, r) ==> LocalAfter(pol, l', r') == l' && RemoteAfter(pol, l', r') == r')
  {
    var l', r' := LocalAfter(pol, l, r), RemoteAfter(pol, l, r);
    RerunSets(pol, l, r, l', r');
    if Settled(pol, l, r) {
      NothingToMerge(pol, l', r');
    }
  }

  /** A server whose clock is behind: the file it was just sent looks newer here and is sent again. */
  lemma SentAgain()
    ensures var pol := Policy((p: Path) => false, (p: Path) => false, false, (p: Path) => 4, 9);
            var l: Tree, r: Tree := map[["a"] := File([1], 5, false)], map[];
            && Mountable(l, r)
            && ["a"] in UploadSet(pol, LocalAfter(pol, l, r), RemoteAfter(pol, l, r))
  {
    hide LocalAfter, RemoteAfter;
    var pol := Policy((p: Path) => false, (p: Path) => false, false, (p: Path) => 4, 9);
    var l: Tree, r: Tree := map[["a"] := File([1], 5, false)], map[];
    assert Uploads(pol, l, r, ["a"]);
    RerunUploads(pol, l, r, ["a"]);
    LocalAfterAt(pol, l, r, ["a"]);
  }

  lemma RerunSets(pol: Policy, l: Tree, r: Tree, l': Tree, r': Tree)
    requires Mountable(l, r) && l' == LocalAfter(pol, l, r) && r' == RemoteAfter(pol, l, r)
    ensures DownloadSet(pol, l', r') == {} && NewDirs(pol, l', r') == {}
    ensures UploadSet(pol, l', r') == {} <==> Settled(pol, l, r)
  {
    hide LocalAfter, RemoteAfter;
    forall p ensures !Downloads(pol, l', r', p) && (p in l' && l'[p].Dir? && !pol.temp(p) ==> p in r') {
      RerunUploads(pol, l, r, p);
    }
    if UploadSet(pol, l', r') == {} {
      forall p | p in UploadSet(pol, l, r) ensures l[p].time <= pol.stamp(p) {
        RerunUploads(pol, l, r, p);
        LocalAfterAt(pol, l, r, p);
        RemoteAfterAt(pol, l, r, p);
        assert p !in UploadSet(pol, l', r');
      }
      forall p | p in DownloadSet(pol, l, r) && r[p].time == 0 ensures pol.now <= 0 {
        RerunUploads(pol, l, r, p);
        LocalAfterAt(pol, l, r, p);
        assert p !in UploadSet(pol, l', r');
      }
    }
    if Settled(pol, l, r) {
      forall p ensures !Uploads(pol, l', r', p) {
        RerunUploads(pol, l, r, p);
      }
    }
  }

  lemma NothingToMerge(pol: Policy, l: Tree, r: Tree)
    requires UploadSet(pol, l, r) == {} && DownloadSet(pol, l, r) == {} && NewDirs(pol, l, r) == {}
    ensures LocalAfter(pol, l, r) == l && RemoteAfter(pol, l, r) == r
  {
    MergeNothing(l);
    MergeNothing(r);
    assert Ups(pol, l, {}) == map[] && Downs(pol, r, {}) == map[];
  }
}
