/** The runners of a RunnerSet: what one pass of findRunners and syncRunners does to them
    (controllers/runnerset_controller.go, util/sortable/sortable.go). */
module Fleet {
  import opened Strings
  import opened Revisions
  import opened History
  import opened Truncation

  datatype Phase = Unset | Pending | Idle | Active | Complete

  datatype Runner = Runner(
    name: string, labels: Labels, controller: Option<string>, phase: Phase, terminating: bool, finalizers: bool)

  type Runners = map<string, Runner>

  /** Which calls the API server lets through: adoption patches and deletes by runner name, creates by position. */
  datatype FleetApi = FleetApi(adopts: string -> bool, deletes: string -> bool, creates: nat -> bool)

  ghost predicate KeyedRunners(runners: Runners) {
    forall n :: n in runners ==> runners[n].name == n
  }

  predicate Selected(r: Runner, o: RunnerSet) { Matches(o.selector, r.labels) }

  /* ---- findRunners ---- */

  datatype Fate = Foreign | AdoptionFailed | Rolled | Completed | Retained

  function FateOf(r: Runner, o: RunnerSet, rev: string, api: FleetApi): Fate {
    if r.controller.Some? && r.controller != Some(o.uid) then Foreign
    else if r.controller.None? && !api.adopts(r.name) then AdoptionFailed
    else if r.phase == Idle && o.rolling && LabelOf(r.labels) != rev then Rolled
    else if r.phase == Complete then Completed
    else Retained
  }

  function Adopted(r: Runner, o: RunnerSet): Runner { r.(controller := Some(o.uid)) }

  /** A delete call marks an object that has finalizers and removes one that has none. */
  function AfterDelete(r: Runner): Option<Runner> {
    if r.finalizers then Some(r.(terminating := true)) else None
  }

  /** What is left in the store of one listed runner. */
  function AfterFind(r: Runner, o: RunnerSet, rev: string, api: FleetApi): Option<Runner> {
    match FateOf(r, o, rev, api)
    case Foreign => Some(r)
    case AdoptionFailed => Some(r)
    case Retained => Some(Adopted(r, o))
    case Rolled => if api.deletes(r.name) then AfterDelete(Adopted(r, o)) else Some(Adopted(r, o))
    case Completed => if api.deletes(r.name) then AfterDelete(Adopted(r, o)) else Some(Adopted(r, o))
  }

  /** The store once the runners named in `seen` have been handled. */
  function FoundAmong(runners: Runners, o: RunnerSet, rev: string, api: FleetApi, seen: set<string>): Runners {
    map n | n in runners && (n in seen ==> AfterFind(runners[n], o, rev, api).Some?) ::
      if n in seen then AfterFind(runners[n], o, rev, api).value else runners[n]
  }

  function SelectedNames(runners: Runners, o: RunnerSet): set<string> {
    set n | n in runners && Selected(runners[n], o)
  }

  function Found(runners: Runners, o: RunnerSet, rev: string, api: FleetApi): Runners {
    FoundAmong(runners, o, rev, api, SelectedNames(runners, o))
  }

  /** The slice findRunners returns, in listing order. */
  function RetainedOf(list: seq<Runner>, o: RunnerSet, rev: string, api: FleetApi): seq<Runner> {
    if list == [] then []
    else
      var last := list[|list| - 1];
      RetainedOf(list[..|list| - 1], o, rev, api)
      + if FateOf(last, o, rev, api) == Retained then [Adopted(last, o)] else []
  }

  ghost predicate Distinct(s: seq<Runner>) {
    forall i, j :: 0 <= i < j < |s| ==> s[i].name != s[j].name
  }

  /** The list call returns the selected runners, each once, in any order. */
  ghost predicate ListsRunners(list: seq<Runner>, runners: Runners, o: RunnerSet) {
    && Distinct(list)
    && (forall r :: r in list ==> r.name in runners && runners[r.name] == r && Selected(r, o))
    && (forall n :: n in runners && Selected(runners[n], o) ==> runners[n] in list)
  }

  function Count(s: seq<Runner>, p: Runner -> bool): nat {
    if s == [] then 0 else Count(s[..|s| - 1], p) + if p(s[|s| - 1]) then 1 else 0
  }

  function IsIdle(): Runner -> bool { (r: Runner) => r.phase == Idle }

  function IsActive(): Runner -> bool { (r: Runner) => r.phase == Active }

  function HasRevision(rev: string): Runner -> bool { (r: Runner) => LabelOf(r.labels) == rev }

  /* ---- syncRunners ---- */

  const MUST_DELETE := 100.0
  const COULD_DELETE := 50.0
  const MUST_NOT_DELETE := 0.0

  function Priority(r: Runner): real {
    if r.terminating then MUST_DELETE
    else if r.phase == Active then MUST_NOT_DELETE
    else COULD_DELETE
  }

  /** RunnersToDelete.Less */
  predicate DeleteFirst(a: Runner, b: Runner) { Priority(b) < Priority(a) }

  ghost predicate SortedForDelete(s: seq<Runner>) {
    forall i, j :: 0 <= i < j < |s| ==> !DeleteFirst(s[j], s[i])
  }

  /** The order the slice is in once the runners to delete have been taken from its front: sorted only when some but
      not all of it goes. sort.Sort is unstable, so any sorted permutation is possible. */
  ghost predicate ReorderedFor(kept: seq<Runner>, order: seq<Runner>, desired: int) {
    if 0 < |kept| - desired < |kept| then multiset(order) == multiset(kept) && SortedForDelete(order)
    else order == kept
  }

  function Surplus(n: nat, desired: int): (k: nat)
    ensures k <= n
  {
    if n - desired >= n then n else if n - desired <= 0 then 0 else n - desired
  }

  function Chosen(order: seq<Runner>, desired: int): seq<Runner> {
    order[..Surplus(|order|, desired)]
  }

  function RunnerNames(s: seq<Runner>): set<string> { set r | r in s :: r.name }

  /** The store after delete calls for the given names. */
  function Deleted(runners: Runners, names: set<string>, api: FleetApi): Runners {
    map n | n in runners && (n in names && api.deletes(n) ==> runners[n].finalizers) ::
      if n in names && api.deletes(n) then runners[n].(terminating := true) else runners[n]
  }

  function Newborn(o: RunnerSet, rev: string, name: string): Runner {
    Runner(name, o.template.labels[HASH_LABEL := rev], Some(o.uid), Unset, false, false)
  }

  function WithBirths(runners: Runners, o: RunnerSet, rev: string, births: set<string>): Runners {
    map n | n in runners.Keys + births :: if n in births then Newborn(o, rev, n) else runners[n]
  }

  function CreatesAccepted(api: FleetApi, n: nat): nat {
    if n == 0 then 0 else CreatesAccepted(api, n - 1) + if api.creates(n - 1) then 1 else 0
  }

  /** One syncRunners call: `order` is the slice afterwards and `births` the names the server generated. */
  ghost predicate Synced(o: RunnerSet, rev: string, before: Runners, kept: seq<Runner>, api: FleetApi,
                         after: Runners, order: seq<Runner>, births: set<string>, failed: bool) {
    var missing := o.desired - |kept|;
    && ReorderedFor(kept, order, o.desired)
    && births !! before.Keys
    && if missing > 0 then
         && |births| == CreatesAccepted(api, missing)
         && after == WithBirths(before, o, rev, births)
         && (failed <==> |births| < missing)
       else
         && births == {}
         && after == Deleted(before, RunnerNames(Chosen(order, o.desired)), api)
         && (failed <==> exists r :: r in Chosen(order, o.desired) && !api.deletes(r.name))
  }

  /* ---- counting ---- */

  lemma {:induction false} CountAppend(a: seq<Runner>, b: seq<Runner>, p: Runner -> bool)
    ensures Count(a + b, p) == Count(a, p) + Count(b, p)
  {
    if b == [] {
      assert a + b == a;
    } else {
      CountAppend(a, b[..|b| - 1], p);
      assert (a + b)[..|a + b| - 1] == a + b[..|b| - 1];
    }
  }

  lemma {:induction false} CountPermutation(s: seq<Runner>, t: seq<Runner>, p: Runner -> bool)
    requires multiset(s) == multiset(t)
    ensures |s| == |t| && Count(s, p) == Count(t, p)
  {
    assert |multiset(s)| == |multiset(t)|;
    if s != [] {
      var x := s[|s| - 1];
      assert x in multiset(t);
      var i :| 0 <= i < |t| && t[i] == x;
      var rest := t[..i] + t[i + 1..];
      assert t == t[..i] + [x] + t[i + 1..];
      assert s == s[..|s| - 1] + [x];
      calc {
        multiset(rest) + multiset{x};
        multiset(t[..i] + [x] + t[i + 1..]);
        multiset(s[..|s| - 1] + [x]);
        multiset(s[..|s| - 1]) + multiset{x};
      }
      assert multiset(rest) == multiset(rest) + multiset{x} - multiset{x};
      CountPermutation(s[..|s| - 1], rest, p);
      CountAppend(t[..i], [x], p);
      CountAppend(t[..i] + [x], t[i + 1..], p);
      CountAppend(t[..i], t[i + 1..], p);
      assert [x][..0] == [];
    }
  }

  lemma {:induction false} CountAll(s: seq<Runner>, p: Runner -> bool)
    requires forall r :: r in s ==> p(r)
    ensures Count(s, p) == |s|
  {
    if s != [] {
      assert s == s[..|s| - 1] + [s[|s| - 1]];
      CountAll(s[..|s| - 1], p);
    }
  }

  lemma {:induction false} CountNone(s: seq<Runner>, p: Runner -> bool)
    requires forall r :: r in s ==> !p(r)
    ensures Count(s, p) == 0
  {
    if s != [] {
      assert s == s[..|s| - 1] + [s[|s| - 1]];
      CountNone(s[..|s| - 1], p);
    }
  }

  lemma {:induction false} CountComplement(s: seq<Runner>, p: Runner -> bool, q: Runner -> bool)
    requires forall r :: p(r) <==> !q(r)
    ensures Count(s, p) + Count(s, q) == |s|
  {
    if s != [] { CountComplement(s[..|s| - 1], p, q); }
  }

  /* ---- scale-down ---- */

  function IsLive(): Runner -> bool { (r: Runner) => !r.terminating }

  function IsLiveActive(): Runner -> bool { (r: Runner) => !r.terminating && r.phase == Active }

  function AtLeast(t: real): Runner -> bool { (r: Runner) => Priority(r) >= t }

  /** A sorted slice has all its runners of at least priority t in front. */
  lemma SortedPrefix(s: seq<Runner>, k: nat, t: real)
    requires SortedForDelete(s) && k <= |s|
    ensures Count(s[..k], AtLeast(t)) == Min(k, Count(s, AtLeast(t)))
  {
    var p := AtLeast(t);
    assert s == s[..k] + s[k..];
    CountAppend(s[..k], s[k..], p);
    CountBound(s[..k], p);
    assert k == 0 ==> s[..k] == [];
    if k > 0 {
      SortedSplits(s, k, t);
      hide SortedForDelete, AtLeast, Count;
      if p(s[k - 1]) { CountAll(s[..k], p); } else { CountNone(s[k..], p); }
    }
  }

  lemma SortedSplits(s: seq<Runner>, k: nat, t: real)
    requires SortedForDelete(s) && 0 < k <= |s|
    ensures AtLeast(t)(s[k - 1]) ==> forall r :: r in s[..k] ==> AtLeast(t)(r)
    ensures !AtLeast(t)(s[k - 1]) ==> forall r :: r in s[k..] ==> !AtLeast(t)(r)
  {
    forall i | 0 <= i < k ensures Priority(s[i]) >= Priority(s[k - 1]) {
      if i < k - 1 { assert !DeleteFirst(s[k - 1], s[i]); }
    }
    forall i | k <= i < |s| ensures Priority(s[i]) <= Priority(s[k - 1]) { assert !DeleteFirst(s[i], s[k - 1]); }
    hide Priority;
  }

  function Min(a: int, b: int): int { if a < b then a else b }

  lemma {:induction false} CountBound(s: seq<Runner>, p: Runner -> bool)
    ensures Count(s, p) <= |s|
  {
    if s != [] { CountBound(s[..|s| - 1], p); }
  }

  lemma {:induction false} CountSame(s: seq<Runner>, p: Runner -> bool, q: Runner -> bool)
    requires forall r :: r in s ==> (p(r) <==> q(r))
    ensures Count(s, p) == Count(s, q)
  {
    if s != [] {
      assert s == s[..|s| - 1] + [s[|s| - 1]];
      CountSame(s[..|s| - 1], p, q);
    }
  }

  /** In the chosen prefix, the runners below a priority are what remains once those above it are used up. */
  lemma ChosenBelow(kept: seq<Runner>, order: seq<Runner>, desired: int, t: real, below: Runner -> bool)
    requires ReorderedFor(kept, order, desired)
    requires forall r :: below(r) <==> !AtLeast(t)(r)
    ensures |order| == |kept| && Count(order, below) == Count(kept, below)
    ensures Count(Chosen(order, desired), below) == Max(0, Count(kept, below) - Max(desired, 0))
  {
    var k := Surplus(|kept|, desired);
    CountPermutation(order, kept, below);
    CountComplement(order, below, AtLeast(t));
    CountComplement(order[..k], below, AtLeast(t));
    CountBound(order, below);
    if 0 < k < |kept| {
      SortedPrefix(order, k, t);
    } else if k == |kept| {
      assert order[..k] == order;
    }
  }

  /** Scale-down newly marks exactly max(0, live - desired) runners, however many are already terminating and whatever
      order the sort leaves ties in. */
  lemma ScaleDownMarksExactly(kept: seq<Runner>, order: seq<Runner>, desired: int)
    requires ReorderedFor(kept, order, desired)
    ensures Count(Chosen(order, desired), IsLive()) == Max(0, Count(kept, IsLive()) - Max(desired, 0))
  {
    ChosenBelow(kept, order, desired, MUST_DELETE, IsLive());
  }

  /** Of the live Active runners exactly max(0, active - desired) are chosen. */
  lemma ScaleDownSparesActive(kept: seq<Runner>, order: seq<Runner>, desired: int)
    requires ReorderedFor(kept, order, desired)
    ensures Count(Chosen(order, desired), IsLiveActive()) == Max(0, Count(kept, IsLiveActive()) - Max(desired, 0))
    ensures forall i, j :: 0 <= i < |Chosen(order, desired)| <= j < |order| && IsLiveActive()(order[i]) ==>
      IsLiveActive()(order[j])
  {
    ChosenBelow(kept, order, desired, COULD_DELETE, IsLiveActive());
  }
}
