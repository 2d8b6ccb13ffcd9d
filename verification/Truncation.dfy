/** TruncateHistory (pkg/revision/revision.go) as a function of the listing, and what it keeps. */
module Truncation {
  import opened Strings
  import opened Revisions
  import opened History

  /** Reading a missing key of a Go map of strings gives the empty string. */
  function LabelOf(labels: Labels): string {
    if HASH_LABEL in labels then labels[HASH_LABEL] else ""
  }

  /** The revision labels of the runners the owner controls; objects without labels are skipped. */
  function RunnerLabels(controlled: seq<Labels>): set<string> {
    set l | l in controlled && l != map[] :: LabelOf(l)
  }

  /** The keys of the `excluded` map. */
  function Referenced(o: RunnerSet, controlled: seq<Labels>): set<string> {
    (if o.status.current == "" then {} else {o.status.current})
    + (if o.status.next == "" then {} else {o.status.next})
    + RunnerLabels(controlled)
  }

  /** The listed revisions nothing refers to, in listing order. */
  function Unreferenced(list: seq<ControllerRevision>, referenced: set<string>): (h: seq<ControllerRevision>)
    ensures forall r :: r in h <==> r in list && r.name !in referenced
    ensures |h| <= |list|
  {
    if list == [] then []
    else
      var front, last := list[..|list| - 1], list[|list| - 1];
      assert list == front + [last];
      Unreferenced(front, referenced) + if last.name in referenced then [] else [last]
  }

  function NamesOf(s: seq<ControllerRevision>): set<string> {
    set r | r in s :: r.name
  }

  datatype Truncated =
    | Kept(revs: Store)
    | DeleteFailed(revs: Store)
    | SliceOutOfRange(revs: Store)

  /** Deletes the first `|h| - limit` revisions of `h`, of which there are `listed` at most. `succeeding` delete calls
      succeed before one fails. A negative limit slices past the end of the collected revisions: beyond the listing's
      length that panics, within it the deletes reach nil entries after the last revision. */
  function Prune(revs: Store, h: seq<ControllerRevision>, limit: int, listed: nat, succeeding: nat): Truncated {
    var cut := |h| - limit;
    if cut <= 0 then Kept(revs)
    else if cut > listed then SliceOutOfRange(revs)
    else if succeeding < cut && succeeding < |h| then DeleteFailed(revs - NamesOf(h[..succeeding]))
    else if cut > |h| then DeleteFailed(revs - NamesOf(h))
    else Kept(revs - NamesOf(h[..cut]))
  }

  function Truncate(
    revs: Store, o: RunnerSet, list: seq<ControllerRevision>, controlled: seq<Labels>, succeeding: nat): Truncated
  {
    Prune(revs, Unreferenced(list, Referenced(o, controlled)), o.limit, |list|, succeeding)
  }

  function Max(a: int, b: int): int { if a > b then a else b }

  lemma {:induction false} UnreferencedDistinct(list: seq<ControllerRevision>, referenced: set<string>)
    requires DistinctNames(list)
    ensures DistinctNames(Unreferenced(list, referenced))
    ensures Sorted(list) ==> Sorted(Unreferenced(list, referenced))
  {
    if list != [] {
      var front, last := list[..|list| - 1], list[|list| - 1];
      UnreferencedDistinct(front, referenced);
      forall r | r in Unreferenced(front, referenced)
        ensures r.name != last.name && (Sorted(list) ==> !RevisionLess(last, r))
      {
        var i :| 0 <= i < |front| && front[i] == r;
        assert list[i] == r;
      }
    }
  }

  lemma {:induction false} NamesSize(s: seq<ControllerRevision>)
    requires DistinctNames(s)
    ensures |NamesOf(s)| == |s|
  {
    if s != [] {
      var front, last := s[..|s| - 1], s[|s| - 1];
      assert s == front + [last];
      NamesSize(front);
      assert last.name !in NamesOf(front);
      assert NamesOf(s) == NamesOf(front) + {last.name};
    }
  }

  /** Nothing that is referenced ever goes, and nothing is changed or removed beyond unreferenced listed revisions,
      for every limit and however many deletes fail. */
  lemma TruncateIsSafe(
    revs: Store, o: RunnerSet, list: seq<ControllerRevision>, controlled: seq<Labels>, succeeding: nat)
    requires Keyed(revs) && Lists(list, Owned(revs, o))
    ensures
      var after := Truncate(revs, o, list, controlled, succeeding).revs;
      && Keyed(after) && after.Keys <= revs.Keys && (forall n :: n in after ==> after[n] == revs[n])
      && (forall n :: n in revs && (!Listed(revs[n], o) || n in Referenced(o, controlled)) ==> n in after)
  {
    var h := Unreferenced(list, Referenced(o, controlled));
    var after := Truncate(revs, o, list, controlled, succeeding).revs;
    forall n | n in revs && n !in after ensures n !in Referenced(o, controlled) && Listed(revs[n], o) {
      assert n in NamesOf(h);
      var r :| r in h && r.name == n;
      assert r in Owned(revs, o);
    }
  }

  /** How many unreferenced revisions go. */
  function Cut(h: seq<ControllerRevision>, limit: int): (n: nat)
    requires limit >= 0
    ensures n == Max(0, |h| - limit) && n <= |h|
  {
    if |h| <= limit then 0 else |h| - limit
  }

  lemma ListedNames(revs: Store, o: RunnerSet, list: seq<ControllerRevision>, s: seq<ControllerRevision>)
    requires Keyed(revs) && Lists(list, Owned(revs, o)) && forall r :: r in s ==> r in list
    ensures forall r :: r in s ==> r.name in revs && revs[r.name] == r
    ensures NamesOf(s) <= revs.Keys
  {
    forall r | r in s ensures r.name in revs && revs[r.name] == r { assert r in Owned(revs, o); }
  }

  lemma PruneCuts(revs: Store, h: seq<ControllerRevision>, limit: int, listed: nat, succeeding: nat)
    requires limit >= 0 && succeeding >= listed >= |h|
    ensures Prune(revs, h, limit, listed, succeeding) == Kept(revs - NamesOf(h[..Cut(h, limit)]))
  {
    if |h| <= limit {
      assert h[..0] == [];
      assert NamesOf([]) == {};
      assert revs - {} == revs;
    }
  }

  /** How many of the collected revisions go, for every limit and however many deletes succeed. */
  function Pruned(h: seq<ControllerRevision>, limit: int, listed: nat, succeeding: nat): (n: nat)
    ensures n <= |h|
  {
    var cut := |h| - limit;
    if cut <= 0 || cut > listed then 0
    else if succeeding < cut && succeeding < |h| then succeeding
    else if cut > |h| then |h|
    else cut
  }

  lemma PruneTakes(revs: Store, h: seq<ControllerRevision>, limit: int, listed: nat, succeeding: nat)
    ensures Prune(revs, h, limit, listed, succeeding).revs == revs - NamesOf(h[..Pruned(h, limit, listed, succeeding)])
  {
    assert NamesOf(h[..0]) == {};
    assert h[..|h|] == h;
    assert revs - {} == revs;
  }

  /** With a limit that is not negative and deletes that succeed, of the h unreferenced revisions exactly
      max(0, h - limit) go, and only such. */
  lemma TruncateExactly(
    revs: Store, o: RunnerSet, list: seq<ControllerRevision>, controlled: seq<Labels>, succeeding: nat)
    requires Keyed(revs) && Lists(list, Owned(revs, o)) && o.limit >= 0 && succeeding >= |list|
    ensures
      var res := Truncate(revs, o, list, controlled, succeeding);
      var gone := revs.Keys - res.revs.Keys;
      var h := Unreferenced(list, Referenced(o, controlled));
      res.Kept? && |gone| == Max(0, |h| - o.limit) && gone <= NamesOf(h)
  {
    hide Unreferenced, Referenced, FreeNames, Lists, Owned, DistinctNames, Keyed, NamesOf, Truncate;
    CollectedAreFree(revs, o, list, controlled);
    TruncateCounts(revs, o, list, controlled, succeeding);
  }

  lemma PruneCounts(revs: Store, h: seq<ControllerRevision>, cut: nat)
    requires DistinctNames(h) && NamesOf(h) <= revs.Keys && cut <= |h|
    ensures var gone := revs.Keys - (revs - NamesOf(h[..cut])).Keys;
      |gone| == cut && gone <= NamesOf(h)
  {
    var doomed := h[..cut];
    NamesSize(doomed);
    assert forall r :: r in doomed ==> r in h;
    assert NamesOf(doomed) <= NamesOf(h);
    assert revs.Keys - (revs - NamesOf(doomed)).Keys == NamesOf(doomed);
  }

  /** A listed revision that neither pointer nor the label of any runner names. A runner with labels but without a
      revision label counts as naming the empty name; one without any labels names nothing. */
  predicate Free(n: string, revs: Store, o: RunnerSet, controlled: seq<Labels>) {
    && n in revs && Listed(revs[n], o)
    && (n == "" || n !in {o.status.current, o.status.next})
    && forall l :: l in controlled && l != map[] ==>
         if HASH_LABEL in l then l[HASH_LABEL] != n else n != ""
  }

  ghost function FreeNames(revs: Store, o: RunnerSet, controlled: seq<Labels>): set<string> {
    set n | n in revs && Free(n, revs, o, controlled)
  }

  lemma CollectedAreFree(revs: Store, o: RunnerSet, list: seq<ControllerRevision>, controlled: seq<Labels>)
    requires Keyed(revs) && Lists(list, Owned(revs, o))
    ensures var h := Unreferenced(list, Referenced(o, controlled));
      NamesOf(h) == FreeNames(revs, o, controlled) && |h| == |FreeNames(revs, o, controlled)| && DistinctNames(h)
  {
    var referenced := Referenced(o, controlled);
    forall n | n in revs && Listed(revs[n], o) ensures n !in referenced <==> Free(n, revs, o, controlled) {
      ReferencedOrFree(n, revs, o, controlled);
    }
    assert forall n :: Free(n, revs, o, controlled) ==> n in revs && Listed(revs[n], o);
    hide Referenced, Free;
    UnreferencedDistinct(list, referenced);
    NamesSize(Unreferenced(list, referenced));
    CollectedNames(revs, o, list, referenced);
    hide Unreferenced, Owned, Lists, Listed, NamesOf, DistinctNames;
    assert forall n :: n in NamesOf(Unreferenced(list, referenced)) <==> n in FreeNames(revs, o, controlled);
  }

  lemma CollectedNames(revs: Store, o: RunnerSet, list: seq<ControllerRevision>, referenced: set<string>)
    requires Keyed(revs) && Lists(list, Owned(revs, o))
    ensures forall n :: n in NamesOf(Unreferenced(list, referenced)) <==>
      n in revs && Listed(revs[n], o) && n !in referenced
  {
    var h := Unreferenced(list, referenced);
    ListedNames(revs, o, list, h);
    hide Listed;
    forall r | r in list ensures r.name in revs && revs[r.name] == r && Listed(r, o) { assert r in Owned(revs, o); }
    forall n | n in revs && Listed(revs[n], o) && n !in referenced ensures n in NamesOf(h) {
      assert revs[n] in Owned(revs, o) && revs[n] in h;
    }
  }

  lemma ReferencedOrFree(n: string, revs: Store, o: RunnerSet, controlled: seq<Labels>)
    requires n in revs && Listed(revs[n], o)
    ensures n !in Referenced(o, controlled) <==> Free(n, revs, o, controlled)
  {
    if n in RunnerLabels(controlled) {
      var l :| l in controlled && l != map[] && LabelOf(l) == n;
    }
    forall l | l in controlled && l != map[] ensures LabelOf(l) in RunnerLabels(controlled) {}
  }

  /** How many revisions go, and which: for a limit that is not negative, of the free ones all beyond the limit, as far
      as the deletes succeed; for a negative one, all of them, unless the slice would reach past the listing, where the
      call breaks off with nothing deleted. It ends well exactly when everything due was deleted. */
  lemma TruncateCounts(
    revs: Store, o: RunnerSet, list: seq<ControllerRevision>, controlled: seq<Labels>, succeeding: nat)
    requires Keyed(revs) && Lists(list, Owned(revs, o))
    ensures
      var res, free := Truncate(revs, o, list, controlled, succeeding), FreeNames(revs, o, controlled);
      var gone, due := revs.Keys - res.revs.Keys, |free| - o.limit;
      && gone <= free
      && if due > |list| then res == SliceOutOfRange(revs)
         else if due > |free| then
           res.DeleteFailed? && |gone| == if succeeding < |free| then succeeding else |free|
         else
           && |gone| == (if due <= 0 then 0 else if succeeding < due then succeeding else due)
           && (res.Kept? <==> succeeding >= due) && (res.DeleteFailed? <==> succeeding < due)
  {
    hide Unreferenced, Referenced, FreeNames, Lists, Owned, DistinctNames, Keyed, Prune, Pruned, NamesOf;
    var h := Unreferenced(list, Referenced(o, controlled));
    CollectedAreFree(revs, o, list, controlled);
    PruneEnds(revs, h, o.limit, |list|, succeeding);
    PrunedAreGone(revs, o, list, controlled, succeeding);
    assert Truncate(revs, o, list, controlled, succeeding) == Prune(revs, h, o.limit, |list|, succeeding);
    hide Truncate;
  }

  lemma PrunedAreGone(
    revs: Store, o: RunnerSet, list: seq<ControllerRevision>, controlled: seq<Labels>, succeeding: nat)
    requires Keyed(revs) && Lists(list, Owned(revs, o))
    ensures
      var h := Unreferenced(list, Referenced(o, controlled));
      var gone := revs.Keys - Truncate(revs, o, list, controlled, succeeding).revs.Keys;
      gone <= FreeNames(revs, o, controlled) && |gone| == Pruned(h, o.limit, |list|, succeeding)
  {
    var h := Unreferenced(list, Referenced(o, controlled));
    CollectedAreFree(revs, o, list, controlled);
    FreeIsStored(revs, o, controlled);
    hide Unreferenced, Referenced, FreeNames, Lists, Owned, DistinctNames, Keyed, Prune, Pruned, NamesOf;
    PruneTakes(revs, h, o.limit, |list|, succeeding);
    PruneCounts(revs, h, Pruned(h, o.limit, |list|, succeeding));
  }

  lemma FreeIsStored(revs: Store, o: RunnerSet, controlled: seq<Labels>)
    ensures FreeNames(revs, o, controlled) <= revs.Keys
  {
  }

  lemma PruneEnds(revs: Store, h: seq<ControllerRevision>, limit: int, listed: nat, succeeding: nat)
    requires |h| <= listed
    ensures
      var res, n, due := Prune(revs, h, limit, listed, succeeding), Pruned(h, limit, listed, succeeding), |h| - limit;
      if due > listed then res == SliceOutOfRange(revs)
      else if due > |h| then res.DeleteFailed? && n == if succeeding < |h| then succeeding else |h|
      else
        && n == (if due <= 0 then 0 else if succeeding < due then succeeding else due)
        && (res.Kept? <==> succeeding >= due) && (res.DeleteFailed? <==> succeeding < due)
  {
    hide NamesOf;
  }

  /** When no delete fails, every revision that goes is older than every unreferenced one that stays. */
  ghost predicate OldestFirst(revs: Store, o: RunnerSet, list: seq<ControllerRevision>, controlled: seq<Labels>) {
    var after := Truncate(revs, o, list, controlled, |list|).revs;
    forall d, k ::
      && d in revs && d !in after
      && k in revs && k in after && k in NamesOf(Unreferenced(list, Referenced(o, controlled)))
      ==> RevisionLess(revs[d], revs[k])
  }

  /** Of the unreferenced revisions the first ones go, and nothing else does. */
  lemma FrontGoes(revs: Store, o: RunnerSet, list: seq<ControllerRevision>, controlled: seq<Labels>)
    requires Keyed(revs) && Lists(list, Owned(revs, o)) && o.limit >= 0
    ensures
      var h := Unreferenced(list, Referenced(o, controlled));
      var after := Truncate(revs, o, list, controlled, |list|).revs;
      && DistinctNames(h)
      && (forall i :: 0 <= i < |h| ==>
            h[i].name in revs && revs[h[i].name] == h[i] && (h[i].name !in after <==> i < Cut(h, o.limit)))
      && (forall d :: d in revs && d !in after ==> exists i :: 0 <= i < Cut(h, o.limit) && h[i].name == d)
  {
    hide Prune, Unreferenced, Referenced;
    var referenced := Referenced(o, controlled);
    var h := Unreferenced(list, referenced);
    UnreferencedDistinct(list, referenced);
    PruneCuts(revs, h, o.limit, |list|, |list|);
    ListedNames(revs, o, list, h);
    var cut := Cut(h, o.limit);
    forall i | 0 <= i < |h| ensures h[i].name in NamesOf(h[..cut]) <==> i < cut {
      if i < cut { assert h[i] in h[..cut]; }
      if h[i].name in NamesOf(h[..cut]) {
        var m :| 0 <= m < cut && h[..cut][m].name == h[i].name;
        assert h[m].name == h[i].name;
      }
    }
    forall d | d in NamesOf(h[..cut]) ensures exists i :: 0 <= i < cut && h[i].name == d {
      var i :| 0 <= i < cut && h[..cut][i].name == d;
      assert h[i].name == d;
    }
  }

  /** Everything in front of the cut is older than everything behind it. */
  ghost predicate CutSeparates(h: seq<ControllerRevision>, limit: int)
    requires limit >= 0
  {
    forall i, j :: 0 <= i < Cut(h, limit) <= j < |h| ==> RevisionLess(h[i], h[j])
  }

  /** At one limit the oldest go first exactly when the cut falls between older and newer revisions. */
  lemma OldestFirstAtLimit(revs: Store, o: RunnerSet, list: seq<ControllerRevision>, controlled: seq<Labels>)
    requires Keyed(revs) && Lists(list, Owned(revs, o)) && o.limit >= 0
    ensures OldestFirst(revs, o, list, controlled) <==>
      CutSeparates(Unreferenced(list, Referenced(o, controlled)), o.limit)
  {
    hide Unreferenced, Referenced, Truncate, RevisionLess;
    FrontGoes(revs, o, list, controlled);
    var h := Unreferenced(list, Referenced(o, controlled));
    var after := Truncate(revs, o, list, controlled, |list|).revs;
    if OldestFirst(revs, o, list, controlled) {
      forall i, j | 0 <= i < Cut(h, o.limit) <= j < |h| ensures RevisionLess(h[i], h[j]) {
        assert h[j] in h && h[j].name in NamesOf(h) && h[j].name in after && h[i].name !in after;
      }
    }
    if CutSeparates(h, o.limit) {
      forall d, k | d in revs && d !in after && k in revs && k in after && k in NamesOf(h)
        ensures RevisionLess(revs[d], revs[k])
      {
        var i :| 0 <= i < Cut(h, o.limit) && h[i].name == d;
        var j :| 0 <= j < |h| && h[j].name == k;
      }
    }
  }

  /** The oldest go first at every limit exactly when the unreferenced revisions are listed in ascending order; where
      the referenced ones stand among them does not matter. */
  lemma OldestGoFirst(revs: Store, o: RunnerSet, list: seq<ControllerRevision>, controlled: seq<Labels>)
    requires Keyed(revs) && Lists(list, Owned(revs, o))
    ensures Sorted(Unreferenced(list, Referenced(o, controlled))) <==>
      forall limit: nat :: OldestFirst(revs, o.(limit := limit), list, controlled)
  {
    var h := Unreferenced(list, Referenced(o, controlled));
    UnreferencedDistinct(list, Referenced(o, controlled));
    hide Unreferenced, Referenced, OldestFirst, Lists, Owned, Keyed, Sorted, CutSeparates;
    forall limit: nat
      ensures OldestFirst(revs, o.(limit := limit), list, controlled) <==> CutSeparates(h, limit)
    {
      OldestFirstAt(revs, o, list, controlled, limit);
    }
    SortedSeparates(h);
  }

  lemma OldestFirstAt(
    revs: Store, o: RunnerSet, list: seq<ControllerRevision>, controlled: seq<Labels>, limit: nat)
    requires Keyed(revs) && Lists(list, Owned(revs, o))
    ensures OldestFirst(revs, o.(limit := limit), list, controlled) <==>
      CutSeparates(Unreferenced(list, Referenced(o, controlled)), limit)
  {
    assert Referenced(o.(limit := limit), controlled) == Referenced(o, controlled);
    assert Owned(revs, o.(limit := limit)) == Owned(revs, o);
    hide OldestFirst, CutSeparates, Unreferenced, Referenced, Lists, Owned;
    OldestFirstAtLimit(revs, o.(limit := limit), list, controlled);
  }

  /** Every cut separates exactly when the list is sorted. */
  lemma SortedSeparates(h: seq<ControllerRevision>)
    requires DistinctNames(h)
    ensures Sorted(h) <==> forall limit: nat :: CutSeparates(h, limit)
  {
    forall i, j | 0 <= i < j < |h| ensures !RevisionLess(h[j], h[i]) <==> RevisionLess(h[i], h[j]) {
      RevisionLessTotal(h[i], h[j]);
      RevisionLessStrict(h[i], h[j], h[i]);
    }
    hide RevisionLess;
    if Sorted(h) {
      forall limit: nat ensures CutSeparates(h, limit) {}
    }
    if forall limit: nat :: CutSeparates(h, limit) {
      forall i, j | 0 <= i < j < |h| ensures !RevisionLess(h[j], h[i]) {
        assert CutSeparates(h, |h| - i - 1);
        assert Cut(h, |h| - i - 1) == i + 1;
      }
    }
  }

  lemma ReferencedSize(o: RunnerSet, controlled: seq<Labels>)
    ensures |Referenced(o, controlled)| <= 2 + |RunnerLabels(controlled)|
  {
    var current := if o.status.current == "" then {} else {o.status.current};
    var next := if o.status.next == "" then {} else {o.status.next};
    assert Referenced(o, controlled) == current + next + RunnerLabels(controlled);
  }

  lemma Leftovers(h: seq<ControllerRevision>, cut: nat, r: ControllerRevision)
    requires cut <= |h| && r in h && r.name !in NamesOf(h[..cut])
    ensures r.name in NamesOf(h[cut..])
  {
    assert forall m :: 0 <= m < cut ==> h[m] in h[..cut];
    assert forall m :: cut <= m < |h| ==> h[m] in h[cut..];
  }

  /** At most limit + 2 + (distinct runner labels) of the owner's revisions remain. */
  lemma BoundedHistory(
    revs: Store, o: RunnerSet, list: seq<ControllerRevision>, controlled: seq<Labels>, succeeding: nat)
    requires Keyed(revs) && Lists(list, Owned(revs, o)) && o.limit >= 0 && succeeding >= |list|
    ensures
      var after := Truncate(revs, o, list, controlled, succeeding).revs;
      |Owned(after, o)| <= o.limit + 2 + |RunnerLabels(controlled)|
  {
    hide Prune, Unreferenced, Referenced;
    var referenced := Referenced(o, controlled);
    var h := Unreferenced(list, referenced);
    var after := Truncate(revs, o, list, controlled, succeeding).revs;
    var cut := Cut(h, o.limit);
    UnreferencedDistinct(list, referenced);
    PruneCuts(revs, h, o.limit, |list|, succeeding);
    forall r | r in Owned(after, o) ensures r.name in referenced + NamesOf(h[cut..]) {
      assert r in Owned(revs, o) && r in list;
      if r.name !in referenced { Leftovers(h, cut, r); }
    }
    NamesSize(h[cut..]);
    ReferencedSize(o, controlled);
    TruncateIsSafe(revs, o, list, controlled, succeeding);
    NamesInjective(Owned(after, o), referenced + NamesOf(h[cut..]));
  }

  lemma {:induction false} NamesInjective(revs: set<ControllerRevision>, names: set<string>)
    requires NamesApart(revs) && forall r :: r in revs ==> r.name in names
    ensures |revs| <= |names|
  {
    if revs != {} {
      var r :| r in revs;
      NamesInjective(revs - {r}, names - {r.name});
    }
  }

  /** The listing is not sorted here: with a limit of one and the newer revision listed first, the newer one goes and
      the older one stays. */
  lemma UnsortedDeletesNewer() returns (revs: Store, o: RunnerSet, list: seq<ControllerRevision>, d: string, k: string)
    ensures Keyed(revs) && Lists(list, Owned(revs, o)) && o.limit >= 0 && d in revs && k in revs
    ensures RevisionLess(revs[k], revs[d])
    ensures Truncate(revs, o, list, [], |list|) == Kept(map[k := revs[k]])
  {
    var newer := ControllerRevision("a", map[], Some("uid"), "new", 2, 0);
    var older := ControllerRevision("b", map[], Some("uid"), "old", 1, 0);
    d, k := "a", "b";
    revs := map[d := newer, k := older];
    o := RunnerSet("set", "uid", map[], Template("", map[]), 1, false, 1, Status("", "", None, 0, 0, 0));
    list := [newer, older];
    assert Owned(revs, o) == {newer, older} by { assert revs[d] == newer && revs[k] == older; }
    assert list[..1] == [newer] && list[..1][..0] == [];
    assert Unreferenced([newer], {}) == [newer];
    assert Unreferenced(list, {}) == list;
    assert Referenced(o, []) == {};
    assert NamesOf([newer]) == {d};
    assert revs - {d} == map[k := older];
  }
}
