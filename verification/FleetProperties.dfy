/** What passes of findRunners and syncRunners guarantee: the partition they make, who may be touched, how many
    runners stay available, and how a rolling update progresses, on single passes and on whole runs. */
module FleetProperties {
  import opened Strings
  import opened Revisions
  import opened History
  import opened Truncation
  import opened Fleet
  import opened HistoryProperties

  /** One pass over the runners of `o`: findRunners, then syncRunners. */
  datatype Pass = Pass(list: seq<Runner>, order: seq<Runner>, births: set<string>, api: FleetApi, failed: bool)

  ghost predicate Passes(o: RunnerSet, rev: string, before: Runners, after: Runners, p: Pass) {
    && ListsRunners(p.list, before, o) && p.births !! before.Keys
    && Synced(o, rev, Found(before, o, rev, p.api), RetainedOf(p.list, o, rev, p.api), p.api,
              after, p.order, p.births, p.failed)
  }

  /* ---- the partition ---- */

  /** Idle and active runners are counted apart, so together they cannot exceed the length of the slice. */
  lemma {:induction false} IdlePlusActive(s: seq<Runner>)
    ensures Count(s, IsIdle()) + Count(s, IsActive()) <= |s|
  {
    if s != [] { IdlePlusActive(s[..|s| - 1]); }
  }

  /** The returned slice holds exactly the adopted copies of the listed runners whose fate is Retained, each once. */
  lemma {:induction false} RetainedExactly(list: seq<Runner>, o: RunnerSet, rev: string, api: FleetApi)
    requires Distinct(list)
    ensures var kept := RetainedOf(list, o, rev, api);
      && Distinct(kept)
      && (forall r :: r in kept ==> exists x :: x in list && FateOf(x, o, rev, api) == Retained && r == Adopted(x, o))
      && (forall x :: x in list && FateOf(x, o, rev, api) == Retained ==> Adopted(x, o) in kept)
  {
    if list != [] {
      var front, last := list[..|list| - 1], list[|list| - 1];
      assert list == front + [last];
      RetainedExactly(front, o, rev, api);
      var before, kept := RetainedOf(front, o, rev, api), RetainedOf(list, o, rev, api);
      if FateOf(last, o, rev, api) == Retained {
        assert kept == before + [Adopted(last, o)];
        assert kept[..|kept| - 1] == before;
        forall r | r in before ensures r.name != last.name {
          var x :| x in front && r == Adopted(x, o);
        }
      }
    }
  }

  /** After findRunners the store holds every returned runner as it was returned. */
  lemma KeptInStore(list: seq<Runner>, runners: Runners, o: RunnerSet, rev: string, api: FleetApi)
    requires ListsRunners(list, runners, o)
    ensures var found, kept := Found(runners, o, rev, api), RetainedOf(list, o, rev, api);
      && Distinct(kept)
      && (forall r :: r in kept ==>
            && r.name in found && found[r.name] == r && r.name in runners && r.controller == Some(o.uid)
            && FateOf(runners[r.name], o, rev, api) == Retained && Selected(runners[r.name], o))
      && (forall n :: n in runners && Selected(runners[n], o) && FateOf(runners[n], o, rev, api) == Retained ==>
            Adopted(runners[n], o) in kept)
  {
    RetainedExactly(list, o, rev, api);
    forall r | r in RetainedOf(list, o, rev, api)
      ensures r.name in runners && Selected(runners[r.name], o) && FateOf(runners[r.name], o, rev, api) == Retained
      ensures r == Adopted(runners[r.name], o)
    {
      var x :| x in list && FateOf(x, o, rev, api) == Retained && r == Adopted(x, o);
    }
  }

  /** Whether findRunners, once it has the runner under control, means to delete it. */
  predicate Drops(r: Runner, o: RunnerSet, rev: string) {
    || r.phase == Complete
    || (r.phase == Idle && o.rolling && rev != if HASH_LABEL in r.labels then r.labels[HASH_LABEL] else "")
  }

  predicate Taken(r: Runner, o: RunnerSet, api: FleetApi) {
    r.controller == Some(o.uid) || (r.controller.None? && api.adopts(r.name))
  }

  /** What findRunners leaves in the store, runner by runner. Only selected runners it controls or can adopt change:
      they get the controller, and those it drops are removed, or marked while they have finalizers, where the delete is
      accepted. */
  lemma StoreAfterFind(o: RunnerSet, rev: string, before: Runners, api: FleetApi, n: string)
    requires KeyedRunners(before)
    ensures
      var found := Found(before, o, rev, api);
      && (n in found ==> n in before)
      && (n in before ==>
            var r := before[n];
            var taken := o.selector.Items <= r.labels.Items && Taken(r, o, api);
            var deleted := taken && Drops(r, o, rev) && api.deletes(n);
            && (n in found <==> !(deleted && !r.finalizers))
            && (n in found ==>
                  found[n] ==
                  if taken then r.(controller := Some(o.uid), terminating := r.terminating || deleted) else r))
  {
    if n in before { MatchesItems(o.selector, before[n].labels); }
    hide Matches;
  }

  /** The slice findRunners returns is the runners taken and not dropped: so many names, each once, adopted. */
  lemma RetainedNames(o: RunnerSet, rev: string, before: Runners, p: Pass)
    requires KeyedRunners(before) && ListsRunners(p.list, before, o)
    ensures
      var kept := RetainedOf(p.list, o, rev, p.api);
      && (forall n :: n in NamesWhere(kept, Anyone()) <==>
            && n in before && o.selector.Items <= before[n].labels.Items
            && Taken(before[n], o, p.api) && !Drops(before[n], o, rev))
      && (forall r :: r in kept ==> r.name in before && r == before[r.name].(controller := Some(o.uid)))
      && Distinct(kept)
  {
    hide RetainedOf, Found, Selected;
    var kept := RetainedOf(p.list, o, rev, p.api);
    KeptInStore(p.list, before, o, rev, p.api);
    forall r | r in kept ensures r.name in before && r == before[r.name].(controller := Some(o.uid)) {
      KeptIsAdopted(p.list, before, o, rev, p.api, r);
    }
    forall n | n in before
      ensures (Selected(before[n], o) <==> o.selector.Items <= before[n].labels.Items)
      ensures FateOf(before[n], o, rev, p.api) == Retained <==> Taken(before[n], o, p.api) && !Drops(before[n], o, rev)
    {
      MatchesItems(o.selector, before[n].labels);
      SelectedIsMatched(before[n], o);
    }
    hide FateOf, Taken, Drops;
    forall n | n in before && Selected(before[n], o) && FateOf(before[n], o, rev, p.api) == Retained
      ensures n in NamesWhere(kept, Anyone())
    {
      assert Adopted(before[n], o) in kept;
    }
  }

  lemma SelectedIsMatched(r: Runner, o: RunnerSet)
    ensures Selected(r, o) == Matches(o.selector, r.labels)
  {
  }

  /* ---- ownership ---- */

  /** A pass sets a controller only where there was none, never changes one, and deletes only runners it controls. */
  lemma PassRespectsOwners(o: RunnerSet, rev: string, before: Runners, after: Runners, p: Pass, n: string)
    requires KeyedRunners(before) && Passes(o, rev, before, after, p) && n in before
    ensures n in after ==>
      && after[n].controller in {before[n].controller, Some(o.uid)}
      && (before[n].controller.Some? ==> after[n].controller == before[n].controller)
    ensures n !in after || (after[n].terminating && !before[n].terminating) ==>
      && Selected(before[n], o) && before[n].controller in {None, Some(o.uid)}
      && (before[n].controller.None? ==> p.api.adopts(n))
    ensures n in after ==>
      after[n] == before[n].(
        controller := after[n].controller, terminating := before[n].terminating || after[n].terminating)
  {
    hide RetainedOf, Found, Chosen, ReorderedFor, WithBirths, Deleted;
    var kept, found := RetainedOf(p.list, o, rev, p.api), Found(before, o, rev, p.api);
    KeptInStore(p.list, before, o, rev, p.api);
    FindRespects(o, rev, before, p.api, n);
    SyncRespects(o, rev, found, kept, after, p, n);
  }

  lemma FindRespects(o: RunnerSet, rev: string, before: Runners, api: FleetApi, n: string)
    requires KeyedRunners(before) && n in before
    ensures
      var found := Found(before, o, rev, api);
      && (n in found ==>
            && found[n].controller in {before[n].controller, Some(o.uid)}
            && (before[n].controller.Some? ==> found[n].controller == before[n].controller)
            && found[n] == before[n].(
                 controller := found[n].controller, terminating := before[n].terminating || found[n].terminating))
      && (n !in found || (found[n].terminating && !before[n].terminating) ==>
            && Selected(before[n], o) && before[n].controller in {None, Some(o.uid)}
            && (before[n].controller.None? ==> api.adopts(n)))
  {
  }

  lemma SyncRespects(o: RunnerSet, rev: string, found: Runners, kept: seq<Runner>, after: Runners, p: Pass, n: string)
    requires Synced(o, rev, found, kept, p.api, after, p.order, p.births, p.failed) && n !in p.births
    requires forall r :: r in kept ==> r.name in found && found[r.name] == r
    ensures n in after ==> n in found && found[n].(terminating := after[n].terminating) == after[n]
    ensures n in after && found[n].terminating ==> after[n].terminating
    ensures n in found && (n !in after || (after[n].terminating && !found[n].terminating)) ==> found[n] in kept
  {
    OrderHoldsKept(kept, p.order, o.desired);
    if o.desired - |kept| <= 0 && n in RunnerNames(Chosen(p.order, o.desired)) {
      var r :| r in Chosen(p.order, o.desired) && r.name == n;
    }
  }

  lemma OrderHoldsKept(kept: seq<Runner>, order: seq<Runner>, desired: int)
    requires ReorderedFor(kept, order, desired)
    ensures |order| == |kept|
    ensures forall r :: r in order <==> r in kept
    ensures forall r :: r in Chosen(order, desired) ==> r in kept
    ensures Distinct(kept) ==> Distinct(order)
  {
    if order != kept {
      assert |multiset(order)| == |multiset(kept)|;
      forall r ensures r in order <==> r in kept { assert r in multiset(order) <==> r in multiset(kept); }
      if Distinct(kept) { PermutationDistinct(kept, order); }
    }
  }

  lemma {:induction false} DistinctOnce(s: seq<Runner>, x: Runner)
    requires Distinct(s)
    ensures multiset(s)[x] <= 1
  {
    if s != [] {
      var front, last := s[..|s| - 1], s[|s| - 1];
      assert s == front + [last];
      DistinctOnce(front, x);
      if x == last { assert last !in multiset(front); }
    }
  }

  lemma TwiceCounted(t: seq<Runner>, i: nat, j: nat)
    requires i < j < |t| && t[i] == t[j]
    ensures multiset(t)[t[i]] >= 2
  {
    assert t == t[..j] + t[j..];
    assert t[..j][i] == t[i] && t[j..][0] == t[j];
    assert t[i] in multiset(t[..j]) && t[i] in multiset(t[j..]);
  }

  lemma PermutationDistinct(s: seq<Runner>, t: seq<Runner>)
    requires Distinct(s) && multiset(s) == multiset(t)
    ensures Distinct(t)
  {
    forall i, j | 0 <= i < j < |t| ensures t[i].name != t[j].name {
      assert t[i] in multiset(s) && t[j] in multiset(s);
      if t[i].name == t[j].name {
        var a :| 0 <= a < |s| && s[a] == t[i];
        var b :| 0 <= b < |s| && s[b] == t[j];
        TwiceCounted(t, i, j);
        DistinctOnce(s, t[i]);
      }
    }
  }

  /** Any number of RunnerSets with overlapping selectors, and everything else that happens between their passes. */
  datatype OwnerStep = ByPass(o: RunnerSet, rev: string, pass: Pass) | ByOthers

  ghost predicate OwnerSteps(step: OwnerStep, a: Runners, b: Runners) {
    match step
    case ByPass(o, rev, p) => Passes(o, rev, a, b, p)
    case ByOthers => forall n :: n in a && n in b && a[n].controller.Some? ==> b[n].controller == a[n].controller
  }

  /** On any run, in any order of passes, a runner that exists throughout keeps the first controller it gets. */
  lemma {:induction false} ControllerNeverChanges(states: seq<Runners>, steps: seq<OwnerStep>, n: string)
    requires |states| == |steps| + 1
    requires forall i :: 0 <= i < |states| ==> KeyedRunners(states[i]) && n in states[i]
    requires forall i :: 0 <= i < |steps| ==> OwnerSteps(steps[i], states[i], states[i + 1])
    requires states[0][n].controller.Some?
    ensures forall i :: 0 <= i < |states| ==> states[i][n].controller == states[0][n].controller
  {
    if steps != [] {
      assert OwnerSteps(steps[0], states[0], states[1]);
      if steps[0].ByPass? {
        PassRespectsOwners(steps[0].o, steps[0].rev, states[0], states[1], steps[0].pass, n);
      }
      ControllerNeverChanges(states[1..], steps[1..], n);
      forall i | 1 <= i < |states| ensures states[i][n].controller == states[0][n].controller {
        assert states[i] == states[1..][i - 1];
      }
    }
  }

  /* ---- how many runners stay available ---- */

  predicate Mine(r: Runner, o: RunnerSet) { r.controller in {None, Some(o.uid)} }

  /** Neither Complete nor due for a rolling update. */
  predicate Fit(r: Runner, o: RunnerSet, rev: string) {
    r.phase != Complete && !(r.phase == Idle && o.rolling && LabelOf(r.labels) != rev)
  }

  /** The runners that count towards the desired number and are not on their way out. */
  ghost function Available(runners: Runners, o: RunnerSet, rev: string): set<string> {
    set n | n in runners && Selected(runners[n], o) && Mine(runners[n], o)
            && Fit(runners[n], o, rev) && !runners[n].terminating
  }

  ghost predicate AdoptsAccepted(api: FleetApi) { forall n :: api.adopts(n) }

  ghost predicate FindAccepted(api: FleetApi) {
    forall n :: api.adopts(n) && api.deletes(n)
  }

  ghost predicate Cooperative(api: FleetApi) {
    (forall n :: api.adopts(n) && api.deletes(n)) && forall i :: api.creates(i)
  }

  lemma {:induction false} AllCreatesAccepted(api: FleetApi, n: nat)
    requires Cooperative(api)
    ensures CreatesAccepted(api, n) == n
  {
    if n > 0 { AllCreatesAccepted(api, n - 1); }
  }

  function Anyone(): Runner -> bool { (r: Runner) => true }

  function NamesWhere(s: seq<Runner>, p: Runner -> bool): set<string> {
    set r | r in s && p(r) :: r.name
  }

  lemma {:induction false} NamesCounted(s: seq<Runner>, p: Runner -> bool)
    requires Distinct(s)
    ensures |NamesWhere(s, p)| == Count(s, p)
  {
    if s != [] {
      var front, last := s[..|s| - 1], s[|s| - 1];
      assert s == front + [last];
      assert forall r :: r in front ==> r.name != last.name;
      NamesStep(front, last, p);
      NamesCounted(front, p);
      hide NamesWhere, Distinct;
    }
  }

  lemma NamesStep(front: seq<Runner>, last: Runner, p: Runner -> bool)
    requires forall r :: r in front ==> r.name != last.name
    ensures last.name !in NamesWhere(front, p)
    ensures NamesWhere(front + [last], p) == NamesWhere(front, p) + if p(last) then {last.name} else {}
  {
    assert forall r :: r in front + [last] <==> r in front || r == last;
  }

  /** findRunners leaves the available runners available, whatever it is answered. */
  lemma FindKeepsAvailable(o: RunnerSet, rev: string, before: Runners, api: FleetApi, n: string)
    requires KeyedRunners(before)
    ensures n in Available(before, o, rev) <==> n in Available(Found(before, o, rev, api), o, rev)
    ensures n in before && Selected(before[n], o) && FateOf(before[n], o, rev, api) == Retained ==>
      Mine(before[n], o) && Fit(before[n], o, rev)
    ensures AdoptsAccepted(api) && n in before && Selected(before[n], o) ==>
      Mine(before[n], o) && Fit(before[n], o, rev) ==> FateOf(before[n], o, rev, api) == Retained
  {
    hide Matches, LabelOf;
  }

  /** The live runners of the slice are available ones, and with adoptions accepted they are all of them. */
  lemma LiveKeptIsAvailable(o: RunnerSet, rev: string, before: Runners, p: Pass)
    requires KeyedRunners(before) && ListsRunners(p.list, before, o)
    ensures var kept := RetainedOf(p.list, o, rev, p.api);
      && Available(Found(before, o, rev, p.api), o, rev) == Available(before, o, rev)
      && NamesWhere(kept, IsLive()) <= Available(before, o, rev)
      && (AdoptsAccepted(p.api) ==> NamesWhere(kept, IsLive()) == Available(before, o, rev))
  {
    hide RetainedOf, Found, FateOf, Fit, Selected, AdoptsAccepted;
    var kept, found := RetainedOf(p.list, o, rev, p.api), Found(before, o, rev, p.api);
    KeptInStore(p.list, before, o, rev, p.api);
    forall n ensures n in Available(before, o, rev) <==> n in Available(found, o, rev) {
      FindKeepsAvailable(o, rev, before, p.api, n);
    }
    forall n | n in NamesWhere(kept, IsLive()) ensures n in Available(before, o, rev) {
      var r :| r in kept && r.name == n && !r.terminating;
      FindKeepsAvailable(o, rev, before, p.api, n);
      KeptIsAdopted(p.list, before, o, rev, p.api, r);
    }
    if AdoptsAccepted(p.api) {
      forall n | n in Available(before, o, rev) ensures n in NamesWhere(kept, IsLive()) {
        FindKeepsAvailable(o, rev, before, p.api, n);
        assert Adopted(before[n], o) in kept;
      }
    }
  }

  lemma KeptIsAdopted(list: seq<Runner>, runners: Runners, o: RunnerSet, rev: string, api: FleetApi, k: Runner)
    requires ListsRunners(list, runners, o) && k in RetainedOf(list, o, rev, api)
    ensures k.name in runners && k == Adopted(runners[k.name], o)
  {
    RetainedExactly(list, o, rev, api);
    var x :| x in list && FateOf(x, o, rev, api) == Retained && k == Adopted(x, o);
  }

  /** One pass with a co-operative API changes the number of available runners by exactly what is missing or live in
      surplus: terminating runners still count as existing, so they delay replacements but never cause an extra
      delete. */
  lemma PassCounts(o: RunnerSet, rev: string, before: Runners, after: Runners, p: Pass)
    requires KeyedRunners(before) && Passes(o, rev, before, after, p) && Cooperative(p.api) && SelectorFits(o)
    ensures
      var kept := RetainedOf(p.list, o, rev, p.api);
      var live := |Available(before, o, rev)|;
      |Available(after, o, rev)| == live + Max(0, o.desired - |kept|) - Max(0, live - Max(o.desired, 0))
  {
    hide RetainedOf, Found, Available, WithBirths, Deleted, Chosen, ReorderedFor, Count, NamesWhere, CreatesAccepted;
    hide ListsRunners, RunnerNames, SelectorFits, KeyedRunners, Max;
    var kept, found := RetainedOf(p.list, o, rev, p.api), Found(before, o, rev, p.api);
    LiveKeptIsAvailable(o, rev, before, p);
    KeptInStore(p.list, before, o, rev, p.api);
    NamesCounted(kept, IsLive());
    CountBound(kept, IsLive());
    NothingOver(|Available(before, o, rev)|, |kept|, o.desired);
    if o.desired > |kept| {
      AllCreatesAccepted(p.api, o.desired - |kept|);
      AfterBirths(o, rev, found, p.births);
    } else {
      ScaleDownMarksExactly(kept, p.order, o.desired);
      AfterDeletes(o, rev, found, kept, p);
    }
  }

  lemma NothingOver(live: int, kept: nat, desired: int)
    requires live <= kept
    ensures desired > kept ==> Max(0, desired - kept) == desired - kept && Max(0, live - Max(desired, 0)) == 0
    ensures desired <= kept ==> Max(0, desired - kept) == 0
  {
  }

  lemma AfterBirths(o: RunnerSet, rev: string, found: Runners, births: set<string>)
    requires births !! found.Keys && SelectorFits(o)
    ensures |Available(WithBirths(found, o, rev, births), o, rev)| == |Available(found, o, rev)| + |births|
  {
    var after := WithBirths(found, o, rev, births);
    forall n | n in births
      ensures var r := Newborn(o, rev, n); Selected(r, o) && Mine(r, o) && Fit(r, o, rev) && !r.terminating
    {
    }
    hide Selected, Mine, Fit, Newborn, SelectorFits;
    assert Available(after, o, rev) == Available(found, o, rev) + births;
  }

  lemma AfterDeletes(o: RunnerSet, rev: string, found: Runners, kept: seq<Runner>, p: Pass)
    requires Distinct(kept) && ReorderedFor(kept, p.order, o.desired) && Cooperative(p.api)
    requires forall r :: r in kept ==> r.name in found && found[r.name] == r
    requires Available(found, o, rev) == NamesWhere(kept, IsLive())
    ensures
      var chosen := Chosen(p.order, o.desired);
      |Available(Deleted(found, RunnerNames(chosen), p.api), o, rev)|
      == Count(kept, IsLive()) - Count(chosen, IsLive())
  {
    var chosen, rest := Chosen(p.order, o.desired), p.order[Surplus(|p.order|, o.desired)..];
    OrderSplits(kept, p.order, o.desired);
    hide Available, Chosen, ReorderedFor, Surplus, NamesWhere, Count;
    DeletesLeaveRest(o, rev, found, kept, chosen, rest, p.api);
    NamesCounted(rest, IsLive());
    CountAppend(chosen, rest, IsLive());
    OrderCounts(kept, p.order, o.desired);
  }

  lemma DeletesLeaveRest(
    o: RunnerSet, rev: string, found: Runners, kept: seq<Runner>, chosen: seq<Runner>, rest: seq<Runner>, api: FleetApi)
    requires forall r :: r in kept <==> r in chosen || r in rest
    requires forall r :: r in rest ==> r.name !in RunnerNames(chosen)
    requires forall r :: r in kept ==> r.name in found && found[r.name] == r
    requires Available(found, o, rev) == NamesWhere(kept, IsLive()) && Cooperative(api)
    ensures Available(Deleted(found, RunnerNames(chosen), api), o, rev) == NamesWhere(rest, IsLive())
  {
    var after := Deleted(found, RunnerNames(chosen), api);
    forall n | n in NamesWhere(rest, IsLive()) ensures n in Available(after, o, rev) {
      var r :| r in rest && r.name == n && !r.terminating;
      assert r in kept && n in NamesWhere(kept, IsLive());
    }
    forall n | n in Available(after, o, rev) ensures n in NamesWhere(rest, IsLive()) {
      assert n in Available(found, o, rev);
      var r :| r in kept && r.name == n && !r.terminating;
      assert r in chosen ==> n in RunnerNames(chosen);
    }
  }

  lemma OrderCounts(kept: seq<Runner>, order: seq<Runner>, desired: int)
    requires ReorderedFor(kept, order, desired)
    ensures Count(order, IsLive()) == Count(kept, IsLive())
  {
    CountPermutation(order, kept, IsLive());
  }

  lemma RestNotChosen(order: seq<Runner>, k: nat, r: Runner)
    requires Distinct(order) && k <= |order| && r in order[k..]
    ensures r.name !in RunnerNames(order[..k])
  {
    var j :| 0 <= j < |order[k..]| && order[k..][j] == r;
    assert order[k + j] == r;
    forall x | x in order[..k] ensures x.name != r.name {
      var i :| 0 <= i < k && order[..k][i] == x;
      assert order[i] == x;
    }
  }

  /** The slice falls into the runners chosen and the rest, with no name in both. */
  lemma OrderSplits(kept: seq<Runner>, order: seq<Runner>, desired: int)
    requires Distinct(kept) && ReorderedFor(kept, order, desired)
    ensures
      var chosen, rest := Chosen(order, desired), order[Surplus(|order|, desired)..];
      && order == chosen + rest && |order| == |kept| && Distinct(rest)
      && (forall r :: r in kept <==> r in chosen || r in rest)
      && (forall r :: r in rest ==> r.name !in RunnerNames(chosen))
  {
    var k := Surplus(|order|, desired);
    var chosen, rest := order[..k], order[k..];
    assert order == chosen + rest;
    OrderHoldsKept(kept, order, desired);
    hide ReorderedFor, RunnerNames;
    forall r ensures r in kept <==> r in chosen || r in rest { assert r in order <==> r in kept; }
    forall r | r in rest ensures r.name !in RunnerNames(chosen) { RestNotChosen(order, k, r); }
  }

  /** A step of a run at a fixed specification: a pass, or anything else that takes no available runner away. */
  ghost predicate FleetStep(o: RunnerSet, rev: string, step: Option<Pass>, a: Runners, b: Runners) {
    match step
    case Some(p) => Passes(o, rev, a, b, p)
    case None => KeyedRunners(b) && Available(a, o, rev) <= Available(b, o, rev)
  }

  /** A finalizer finishing on a terminating runner is such a step. */
  lemma FinalizerCompletion(o: RunnerSet, rev: string, runners: Runners, n: string)
    requires KeyedRunners(runners) && n in runners && runners[n].terminating
    ensures FleetStep(o, rev, None, runners, runners - {n})
  {
  }

  lemma PassKeepsKeys(o: RunnerSet, rev: string, before: Runners, after: Runners, p: Pass)
    requires KeyedRunners(before) && Passes(o, rev, before, after, p)
    ensures KeyedRunners(after)
  {
    var found := Found(before, o, rev, p.api);
    FoundKeyed(o, rev, before, p.api);
    SyncKeyed(o, rev, found, p.births, RunnerNames(Chosen(p.order, o.desired)), p.api);
    hide RetainedOf, Found, ReorderedFor, Chosen, ListsRunners, WithBirths, Deleted, RunnerNames, KeyedRunners;
  }

  lemma FoundKeyed(o: RunnerSet, rev: string, before: Runners, api: FleetApi)
    requires KeyedRunners(before)
    ensures KeyedRunners(Found(before, o, rev, api))
  {
    hide FateOf, Selected;
  }

  lemma SyncKeyed(o: RunnerSet, rev: string, found: Runners, births: set<string>, names: set<string>, api: FleetApi)
    requires KeyedRunners(found)
    ensures KeyedRunners(WithBirths(found, o, rev, births)) && KeyedRunners(Deleted(found, names, api))
  {
  }

  /** The runners that were live and now are deleted or gone. */
  ghost function NewlyMarked(found: Runners, after: Runners): set<string> {
    set n | n in found && !found[n].terminating && (n !in after || after[n].terminating)
  }

  /** syncRunners newly marks only chosen live runners, and with deletes accepted exactly max(0, live - desired) of
      them, however many runners are already terminating. */
  lemma ScaleDownMarks(
    o: RunnerSet, rev: string, found: Runners, kept: seq<Runner>, api: FleetApi,
    after: Runners, order: seq<Runner>, births: set<string>, failed: bool)
    requires Synced(o, rev, found, kept, api, after, order, births, failed) && Distinct(kept)
    requires forall r :: r in kept ==> r.name in found && found[r.name] == r
    ensures NewlyMarked(found, after) <= NamesWhere(Chosen(order, o.desired), IsLive())
    ensures (forall n :: api.deletes(n)) ==>
      |NewlyMarked(found, after)| == Max(0, Count(kept, IsLive()) - Max(o.desired, 0))
  {
    var chosen := Chosen(order, o.desired);
    ScaleDownMarksExactly(kept, order, o.desired);
    ChosenDistinct(kept, order, o.desired);
    CountBound(kept, IsLive());
    NamesCounted(chosen, IsLive());
    hide Count, ReorderedFor, Chosen, CreatesAccepted, NewlyMarked, NamesWhere, RunnerNames, Distinct;
    if o.desired > |kept| {
      BirthsMarkNothing(o, rev, found, births);
    } else {
      DeletesMark(found, chosen, api);
    }
  }

  lemma BirthsMarkNothing(o: RunnerSet, rev: string, found: Runners, births: set<string>)
    requires births !! found.Keys
    ensures NewlyMarked(found, WithBirths(found, o, rev, births)) == {}
  {
  }

  lemma DeletesMark(found: Runners, chosen: seq<Runner>, api: FleetApi)
    requires forall r :: r in chosen ==> r.name in found && found[r.name] == r
    ensures var marked := NewlyMarked(found, Deleted(found, RunnerNames(chosen), api));
      && marked <= NamesWhere(chosen, IsLive())
      && ((forall n :: api.deletes(n)) ==> marked == NamesWhere(chosen, IsLive()))
  {
    var after := Deleted(found, RunnerNames(chosen), api);
    forall n | n in NewlyMarked(found, after) ensures n in NamesWhere(chosen, IsLive()) {
      assert n in RunnerNames(chosen);
      var r :| r in chosen && r.name == n;
    }
    if forall n :: api.deletes(n) {
      forall n | n in NamesWhere(chosen, IsLive()) ensures n in NewlyMarked(found, after) {
        var r :| r in chosen && r.name == n && !r.terminating;
        assert n in RunnerNames(chosen);
      }
    }
  }

  /** How many of the slice go: what exceeds the desired number, at most all. */
  predicate IsSurplus(k: int, n: nat, desired: int) {
    if desired <= 0 then k == n else if desired >= n then k == 0 else k == n - desired
  }

  /** What syncRunners does to the store beside creating: exactly the first runners of the slice are deleted, removed or
      marked while they have finalizers, where the delete is accepted. */
  lemma StoreAfterSync(o: RunnerSet, rev: string, before: Runners, after: Runners, p: Pass, n: string, k: int)
    requires KeyedRunners(before) && Passes(o, rev, before, after, p) && IsSurplus(k, |p.order|, o.desired)
    requires n in Found(before, o, rev, p.api)
    ensures
      var r := Found(before, o, rev, p.api)[n];
      var deleted := p.api.deletes(n) && exists i :: 0 <= i < k <= |p.order| && p.order[i].name == n;
      && (n in after <==> !(deleted && !r.finalizers))
      && (n in after ==> after[n] == r.(terminating := r.terminating || deleted))
  {
    var found, kept := Found(before, o, rev, p.api), RetainedOf(p.list, o, rev, p.api);
    OrderHoldsKept(kept, p.order, o.desired);
    FoundIsBefore(o, rev, before, p.api);
    hide RetainedOf, Found, ReorderedFor, CreatesAccepted, ListsRunners, Chosen, RunnerNames, KeyedRunners;
    hide WithBirths, Deleted;
    if o.desired > |kept| {
      OthersKept(o, rev, found, p.births, n);
    } else {
      ChosenNames(p.order, o.desired, k, n);
      DeletedAt(found, RunnerNames(Chosen(p.order, o.desired)), p.api, n);
    }
  }

  lemma FoundIsBefore(o: RunnerSet, rev: string, before: Runners, api: FleetApi)
    ensures Found(before, o, rev, api).Keys <= before.Keys
  {
    hide FateOf, AfterFind, Selected;
  }

  lemma OthersKept(o: RunnerSet, rev: string, found: Runners, births: set<string>, n: string)
    requires n in found && n !in births
    ensures n in WithBirths(found, o, rev, births) && WithBirths(found, o, rev, births)[n] == found[n]
  {
  }

  lemma DeletedAt(found: Runners, names: set<string>, api: FleetApi, n: string)
    requires n in found
    ensures var after, deleted := Deleted(found, names, api), n in names && api.deletes(n);
      && (n in after <==> !(deleted && !found[n].finalizers))
      && (n in after ==> after[n] == found[n].(terminating := found[n].terminating || deleted))
  {
  }

  lemma ChosenNames(order: seq<Runner>, desired: int, k: int, n: string)
    requires IsSurplus(k, |order|, desired)
    ensures 0 <= k <= |order| && Chosen(order, desired) == order[..k]
    ensures n in RunnerNames(Chosen(order, desired)) <==> exists i :: 0 <= i < k <= |order| && order[i].name == n
  {
    var chosen := order[..k];
    assert Chosen(order, desired) == chosen;
    hide Chosen, IsSurplus;
    forall i | 0 <= i < k ensures order[i].name in RunnerNames(chosen) { assert order[i] == chosen[i]; }
    if n in RunnerNames(chosen) {
      var i :| 0 <= i < k && chosen[i].name == n;
      assert order[i].name == n;
    }
  }

  /** The runner has the template's labels and the revision's, no others, is under this controller, and has neither been
      started nor deleted. */
  predicate IsNewborn(n: string, r: Runner, o: RunnerSet, rev: string) {
    && r.name == n && r.labels.Keys == o.template.labels.Keys + {HASH_LABEL} && r.labels[HASH_LABEL] == rev
    && (forall l :: l in o.template.labels && l != HASH_LABEL ==> r.labels[l] == o.template.labels[l])
    && r.controller == Some(o.uid) && r.phase == Unset && !r.terminating && !r.finalizers
  }

  ghost function AcceptedAmong(api: FleetApi, n: int): set<int> {
    set i | 0 <= i < n && api.creates(i)
  }

  /** What a pass creates: runners with the template's labels and the revision's, under this controller, not started and
      not being deleted; one for each create call that is accepted. */
  lemma BirthsOfPass(o: RunnerSet, rev: string, before: Runners, after: Runners, p: Pass)
    requires KeyedRunners(before) && Passes(o, rev, before, after, p)
    ensures
      var missing := o.desired - |RetainedOf(p.list, o, rev, p.api)|;
      && (forall n :: n in after && n !in before ==> IsNewborn(n, after[n], o, rev))
      && |after.Keys - before.Keys| == |AcceptedAmong(p.api, missing)|
  {
    var found, kept := Found(before, o, rev, p.api), RetainedOf(p.list, o, rev, p.api);
    FoundIsBefore(o, rev, before, p.api);
    hide RetainedOf, Found, Synced, KeyedRunners, AcceptedAmong, ListsRunners;
    SyncedBirths(o, rev, before, found, kept, after, p);
  }

  lemma SyncedBirths(
    o: RunnerSet, rev: string, before: Runners, found: Runners, kept: seq<Runner>, after: Runners, p: Pass)
    requires Synced(o, rev, found, kept, p.api, after, p.order, p.births, p.failed)
    requires found.Keys <= before.Keys && p.births !! before.Keys
    ensures forall n :: n in after && n !in before ==> IsNewborn(n, after[n], o, rev)
    ensures |after.Keys - before.Keys| == |AcceptedAmong(p.api, o.desired - |kept|)|
  {
    hide ReorderedFor, Chosen, CreatesAccepted, RunnerNames;
    if o.desired > |kept| {
      AcceptedCreates(p.api, o.desired - |kept|);
      BirthsAreNew(o, rev, before, found, p.births);
    } else {
      hide WithBirths;
      assert after.Keys - before.Keys == {};
      assert AcceptedAmong(p.api, o.desired - |kept|) == {};
    }
  }

  lemma BirthsAreNew(o: RunnerSet, rev: string, before: Runners, found: Runners, births: set<string>)
    requires births !! before.Keys && found.Keys <= before.Keys
    ensures var after := WithBirths(found, o, rev, births);
      && after.Keys - before.Keys == births
      && forall n :: n in after && n !in before ==> IsNewborn(n, after[n], o, rev)
  {
  }

  lemma {:induction false} AcceptedCreates(api: FleetApi, n: nat)
    ensures CreatesAccepted(api, n) == |AcceptedAmong(api, n)|
  {
    if n > 0 {
      AcceptedCreates(api, n - 1);
      assert AcceptedAmong(api, n) == AcceptedAmong(api, n - 1) + if api.creates(n - 1) then {n - 1} else {};
    } else {
      assert AcceptedAmong(api, 0) == {};
    }
  }

  ghost predicate RefusesCreate(api: FleetApi, n: int) {
    exists i :: 0 <= i < n && !api.creates(i)
  }

  ghost predicate RefusesDelete(api: FleetApi, order: seq<Runner>, k: int) {
    exists i :: 0 <= i < k <= |order| && !api.deletes(order[i].name)
  }

  /** syncRunners reports an error exactly when one of the calls it makes is refused. */
  lemma FailureOfPass(o: RunnerSet, rev: string, before: Runners, after: Runners, p: Pass, k: int)
    requires KeyedRunners(before) && Passes(o, rev, before, after, p) && IsSurplus(k, |p.order|, o.desired)
    ensures p.failed <==> RefusesCreate(p.api, o.desired - |p.order|) || RefusesDelete(p.api, p.order, k)
  {
    var found, kept := Found(before, o, rev, p.api), RetainedOf(p.list, o, rev, p.api);
    hide RetainedOf, Found, Synced, KeyedRunners, ListsRunners, IsSurplus;
    SyncedFailure(o, rev, found, kept, after, p, k);
  }

  lemma SyncedFailure(o: RunnerSet, rev: string, found: Runners, kept: seq<Runner>, after: Runners, p: Pass, k: int)
    requires Synced(o, rev, found, kept, p.api, after, p.order, p.births, p.failed)
    requires IsSurplus(k, |p.order|, o.desired)
    ensures p.failed <==> RefusesCreate(p.api, o.desired - |p.order|) || RefusesDelete(p.api, p.order, k)
  {
    SyncedOrder(o, rev, found, kept, after, p);
    hide Synced, ReorderedFor;
    if o.desired > |kept| {
      CreatesFail(o, rev, found, kept, after, p);
      assert k == 0;
      hide RefusesCreate, IsSurplus;
    } else {
      DeletesFail(o, rev, found, kept, after, p, k);
      assert o.desired - |p.order| <= 0;
      hide RefusesDelete, IsSurplus;
    }
  }

  lemma SyncedOrder(o: RunnerSet, rev: string, found: Runners, kept: seq<Runner>, after: Runners, p: Pass)
    requires Synced(o, rev, found, kept, p.api, after, p.order, p.births, p.failed)
    ensures |p.order| == |kept|
  {
    OrderHoldsKept(kept, p.order, o.desired);
    hide ReorderedFor, Deleted, WithBirths, Chosen, RunnerNames, Distinct, CreatesAccepted;
  }

  lemma CreatesFail(o: RunnerSet, rev: string, found: Runners, kept: seq<Runner>, after: Runners, p: Pass)
    requires Synced(o, rev, found, kept, p.api, after, p.order, p.births, p.failed) && o.desired > |kept|
    ensures p.failed <==> RefusesCreate(p.api, o.desired - |kept|)
  {
    RefusedCreates(p.api, o.desired - |kept|);
    hide ReorderedFor, Deleted, WithBirths, Chosen, RunnerNames, CreatesAccepted, RefusesCreate;
  }

  lemma DeletesFail(o: RunnerSet, rev: string, found: Runners, kept: seq<Runner>, after: Runners, p: Pass, k: int)
    requires Synced(o, rev, found, kept, p.api, after, p.order, p.births, p.failed) && o.desired <= |kept|
    requires IsSurplus(k, |p.order|, o.desired)
    ensures p.failed <==> RefusesDelete(p.api, p.order, k)
  {
    ChosenNames(p.order, o.desired, k, "");
    ChosenRefused(p.order, k, p.api);
    hide ReorderedFor, Deleted, WithBirths, Chosen, RunnerNames, CreatesAccepted, RefusesDelete, IsSurplus;
  }

  lemma ChosenRefused(order: seq<Runner>, k: nat, api: FleetApi)
    requires k <= |order|
    ensures (exists r :: r in order[..k] && !api.deletes(r.name)) <==> RefusesDelete(api, order, k)
  {
    if r :| r in order[..k] && !api.deletes(r.name) {
      var i :| 0 <= i < k && order[..k][i] == r;
      assert order[i] == r;
    }
    if i :| 0 <= i < k && !api.deletes(order[i].name) { assert order[i] in order[..k]; }
  }

  lemma {:induction false} RefusedCreates(api: FleetApi, n: nat)
    ensures CreatesAccepted(api, n) <= n
    ensures CreatesAccepted(api, n) < n <==> RefusesCreate(api, n)
  {
    if n > 0 {
      RefusedCreates(api, n - 1);
      if i :| 0 <= i < n && !api.creates(i) { assert i < n - 1 || i == n - 1; }
    }
  }

  /** A pass takes at most the live surplus away, whatever calls are refused. */
  lemma PassKeepsFloor(o: RunnerSet, rev: string, before: Runners, after: Runners, p: Pass)
    requires KeyedRunners(before) && Passes(o, rev, before, after, p) && SelectorFits(o)
    ensures |Available(after, o, rev)| >= Min(|Available(before, o, rev)|, Max(o.desired, 0))
  {
    hide RetainedOf, Found, Available, WithBirths, Deleted, ReorderedFor, Count, NamesWhere, Min, Max;
    hide ListsRunners, RunnerNames, SelectorFits, Chosen, CreatesAccepted, KeyedRunners;
    var kept, found := RetainedOf(p.list, o, rev, p.api), Found(before, o, rev, p.api);
    LiveKeptIsAvailable(o, rev, before, p);
    KeptInStore(p.list, before, o, rev, p.api);
    if o.desired > |kept| {
      AfterBirths(o, rev, found, p.births);
      MinBelow(|Available(before, o, rev)|, Max(o.desired, 0));
    } else {
      DeletesKeepFloor(o, rev, found, kept, p);
    }
  }

  lemma MinBelow(a: int, b: int)
    ensures Min(a, b) <= a
  {
  }

  lemma DeletesKeepFloor(o: RunnerSet, rev: string, found: Runners, kept: seq<Runner>, p: Pass)
    requires Distinct(kept) && ReorderedFor(kept, p.order, o.desired)
    requires forall r :: r in kept ==> r.name in found && found[r.name] == r
    requires NamesWhere(kept, IsLive()) <= Available(found, o, rev)
    ensures
      |Available(Deleted(found, RunnerNames(Chosen(p.order, o.desired)), p.api), o, rev)|
      >= Min(|Available(found, o, rev)|, Max(o.desired, 0))
  {
    hide Available, Deleted, ReorderedFor, Count, NamesWhere, RunnerNames, Chosen;
    var chosen := Chosen(p.order, o.desired);
    NamesCounted(kept, IsLive());
    SubsetSize(NamesWhere(kept, IsLive()), Available(found, o, rev));
    ScaleDownMarksExactly(kept, p.order, o.desired);
    ChosenDistinct(kept, p.order, o.desired);
    NamesCounted(chosen, IsLive());
    DeletesTakeLive(o, rev, found, chosen, p.api);
  }

  lemma ChosenDistinct(kept: seq<Runner>, order: seq<Runner>, desired: int)
    requires Distinct(kept) && ReorderedFor(kept, order, desired)
    ensures Distinct(Chosen(order, desired)) && forall r :: r in Chosen(order, desired) ==> r in kept
  {
    OrderHoldsKept(kept, order, desired);
    hide ReorderedFor;
  }

  lemma DeletesTakeLive(o: RunnerSet, rev: string, found: Runners, chosen: seq<Runner>, api: FleetApi)
    requires forall r :: r in chosen ==> r.name in found && found[r.name] == r
    ensures
      |Available(Deleted(found, RunnerNames(chosen), api), o, rev)|
      >= |Available(found, o, rev)| - |NamesWhere(chosen, IsLive())|
  {
    hide Selected, Fit, Mine;
    var after := Deleted(found, RunnerNames(chosen), api);
    var a, b, gone := Available(found, o, rev), Available(after, o, rev), NamesWhere(chosen, IsLive());
    forall n | n in a && n in RunnerNames(chosen) ensures n in gone {
      var r :| r in chosen && r.name == n;
    }
    assert forall n :: n in a && n !in RunnerNames(chosen) ==> n in b;
    hide Available, Deleted, NamesWhere;
    SubsetSize(a - gone, b);
    SubsetSize(a * gone, gone);
    assert a == (a - gone) + (a * gone);
  }

  lemma StepKeepsFloor(o: RunnerSet, rev: string, step: Option<Pass>, a: Runners, b: Runners)
    requires KeyedRunners(a) && SelectorFits(o) && FleetStep(o, rev, step, a, b)
    ensures KeyedRunners(b)
    ensures |Available(b, o, rev)| >= Min(|Available(a, o, rev)|, Max(o.desired, 0))
  {
    hide Available, Passes;
    if step.Some? {
      PassKeepsFloor(o, rev, a, b, step.value);
      PassKeepsKeys(o, rev, a, b, step.value);
    } else {
      SubsetSize(Available(a, o, rev), Available(b, o, rev));
    }
  }

  /** Over any interleaving of passes, with any calls refused, and of finalizer completions and other steps that take no
      available runner away, scaling never brings the available count below the smaller of what it was and what is
      desired. */
  lemma {:induction false} ScalingNeverOvershoots(
    o: RunnerSet, rev: string, states: seq<Runners>, steps: seq<Option<Pass>>)
    requires |states| == |steps| + 1 && KeyedRunners(states[0]) && SelectorFits(o)
    requires forall i :: 0 <= i < |steps| ==> FleetStep(o, rev, steps[i], states[i], states[i + 1])
    ensures forall i :: 0 <= i < |states| ==>
      |Available(states[i], o, rev)| >= Min(|Available(states[0], o, rev)|, Max(o.desired, 0))
  {
    if steps != [] {
      hide FleetStep, Available;
      StepKeepsFloor(o, rev, steps[0], states[0], states[1]);
      ScalingNeverOvershoots(o, rev, states[1..], steps[1..]);
      forall i | 1 <= i < |states|
        ensures |Available(states[i], o, rev)| >= Min(|Available(states[0], o, rev)|, Max(o.desired, 0))
      {
        assert states[i] == states[1..][i - 1];
      }
    }
  }

  /* ---- convergence ---- */

  ghost function Controlled(runners: Runners, o: RunnerSet): set<string> {
    set n | n in runners && Selected(runners[n], o) && runners[n].controller == Some(o.uid)
  }

  ghost predicate NoFinalizers(runners: Runners) {
    forall n :: n in runners ==> !runners[n].finalizers
  }

  /** Exactly the desired number of runners, all of them fit to stay, and no orphan left. */
  ghost predicate FleetSettled(runners: Runners, o: RunnerSet, rev: string) {
    && |Controlled(runners, o)| == o.desired
    && (forall n :: n in Controlled(runners, o) ==> Fit(runners[n], o, rev))
    && (forall n :: n in runners && Selected(runners[n], o) ==> runners[n].controller.Some?)
  }

  lemma FoundIsKept(o: RunnerSet, rev: string, before: Runners, p: Pass)
    requires KeyedRunners(before) && ListsRunners(p.list, before, o) && Cooperative(p.api) && NoFinalizers(before)
    ensures var kept, found := RetainedOf(p.list, o, rev, p.api), Found(before, o, rev, p.api);
      && Controlled(found, o) == NamesWhere(kept, Anyone()) && |Controlled(found, o)| == |kept|
      && (forall n :: n in Controlled(found, o) ==> Fit(found[n], o, rev))
      && (forall n :: n in found && Selected(found[n], o) ==> found[n].controller.Some?)
      && NoFinalizers(found)
  {
    hide RetainedOf, Found, FateOf, Count;
    var kept, found := RetainedOf(p.list, o, rev, p.api), Found(before, o, rev, p.api);
    KeptInStore(p.list, before, o, rev, p.api);
    forall n ensures n in Controlled(found, o) <==> n in NamesWhere(kept, Anyone()) {
      FoundWithoutFinalizers(o, rev, before, p.api, n);
      if n in Controlled(found, o) { assert Adopted(before[n], o) in kept; }
      if n in NamesWhere(kept, Anyone()) { var r :| r in kept && r.name == n; }
    }
    assert Controlled(found, o) == NamesWhere(kept, Anyone());
    forall n | n in found
      ensures !found[n].finalizers && (Selected(found[n], o) ==> found[n].controller.Some?)
      ensures n in Controlled(found, o) ==> Fit(found[n], o, rev)
    {
      FoundWithoutFinalizers(o, rev, before, p.api, n);
    }
    NamesCounted(kept, Anyone());
    CountAll(kept, Anyone());
  }

  lemma FoundWithoutFinalizers(o: RunnerSet, rev: string, before: Runners, api: FleetApi, n: string)
    requires KeyedRunners(before) && Cooperative(api) && NoFinalizers(before)
    ensures var found := Found(before, o, rev, api);
      && (n in Controlled(found, o) <==>
            n in before && Selected(before[n], o) && FateOf(before[n], o, rev, api) == Retained)
      && (n in Controlled(found, o) ==> Fit(found[n], o, rev))
      && (n in found ==> !found[n].finalizers && (Selected(found[n], o) ==> found[n].controller.Some?))
  {
  }

  /** With a co-operative API and deletes that take effect at once, one pass settles the fleet from any state. */
  lemma OnePassSettles(o: RunnerSet, rev: string, before: Runners, after: Runners, p: Pass)
    requires KeyedRunners(before) && Passes(o, rev, before, after, p) && Cooperative(p.api)
    requires NoFinalizers(before) && SelectorFits(o) && o.desired >= 0
    ensures FleetSettled(after, o, rev) && NoFinalizers(after) && !p.failed
  {
    hide RetainedOf, Found, Controlled, Count, ReorderedFor, ListsRunners, WithBirths, Deleted;
    hide NoFinalizers, Fit, Selected, FleetSettled, RunnerNames, Chosen;
    var kept, found := RetainedOf(p.list, o, rev, p.api), Found(before, o, rev, p.api);
    FoundIsKept(o, rev, before, p);
    KeptInStore(p.list, before, o, rev, p.api);
    if o.desired > |kept| {
      AllCreatesAccepted(p.api, o.desired - |kept|);
      BirthsSettle(o, rev, found, p.births);
    } else {
      DeletesSettle(o, rev, found, kept, p);
    }
  }

  lemma BirthsSettle(o: RunnerSet, rev: string, found: Runners, births: set<string>)
    requires births !! found.Keys && SelectorFits(o) && NoFinalizers(found)
    requires forall n :: n in Controlled(found, o) ==> Fit(found[n], o, rev)
    requires forall n :: n in found && Selected(found[n], o) ==> found[n].controller.Some?
    requires |Controlled(found, o)| + |births| == o.desired
    ensures FleetSettled(WithBirths(found, o, rev, births), o, rev) && NoFinalizers(WithBirths(found, o, rev, births))
  {
    var after := WithBirths(found, o, rev, births);
    BirthsControlled(o, rev, found, births);
    hide Controlled, Selected, SelectorFits;
    forall n | n in after
      ensures !after[n].finalizers && (Selected(after[n], o) ==> after[n].controller.Some?)
      ensures n in Controlled(after, o) ==> Fit(after[n], o, rev)
    {
      assert n in births ==> after[n] == Newborn(o, rev, n);
      assert n !in births ==> n in found && after[n] == found[n];
    }
    BirthsControlledCount(o, rev, found, births);
  }

  lemma BirthsControlledCount(o: RunnerSet, rev: string, found: Runners, births: set<string>)
    requires births !! found.Keys && SelectorFits(o)
    ensures |Controlled(WithBirths(found, o, rev, births), o)| == |Controlled(found, o)| + |births|
    ensures Controlled(WithBirths(found, o, rev, births), o) <= WithBirths(found, o, rev, births).Keys
  {
    BirthsControlled(o, rev, found, births);
  }

  lemma BirthsControlled(o: RunnerSet, rev: string, found: Runners, births: set<string>)
    requires births !! found.Keys && SelectorFits(o)
    ensures Controlled(WithBirths(found, o, rev, births), o) == Controlled(found, o) + births
    ensures Controlled(found, o) !! births
    ensures forall n :: n in births ==> Selected(Newborn(o, rev, n), o)
  {
  }

  lemma DeletesSettle(o: RunnerSet, rev: string, found: Runners, kept: seq<Runner>, p: Pass)
    requires Distinct(kept) && ReorderedFor(kept, p.order, o.desired) && Cooperative(p.api)
    requires forall r :: r in kept ==> r.name in found && found[r.name] == r
    requires Controlled(found, o) == NamesWhere(kept, Anyone()) && NoFinalizers(found)
    requires forall n :: n in Controlled(found, o) ==> Fit(found[n], o, rev)
    requires forall n :: n in found && Selected(found[n], o) ==> found[n].controller.Some?
    requires 0 <= o.desired <= |kept|
    ensures var after := Deleted(found, RunnerNames(Chosen(p.order, o.desired)), p.api);
      FleetSettled(after, o, rev) && NoFinalizers(after)
  {
    hide ReorderedFor, Count, Chosen, NamesWhere, Controlled, Fit, RunnerNames, Distinct, Deleted;
    var chosen, rest := Chosen(p.order, o.desired), p.order[Surplus(|p.order|, o.desired)..];
    OrderSplits(kept, p.order, o.desired);
    assert |rest| == o.desired;
    hide Surplus, Selected;
    RestControlled(o, found, kept, chosen, rest, p.api);
    NamesCounted(rest, Anyone());
    CountAll(rest, Anyone());
  }

  lemma RestControlled(
    o: RunnerSet, found: Runners, kept: seq<Runner>, chosen: seq<Runner>, rest: seq<Runner>, api: FleetApi)
    requires forall r :: r in kept <==> r in chosen || r in rest
    requires forall r :: r in rest ==> r.name !in RunnerNames(chosen)
    requires forall r :: r in kept ==> r.name in found && found[r.name] == r
    requires Controlled(found, o) == NamesWhere(kept, Anyone()) && Cooperative(api) && NoFinalizers(found)
    ensures var after := Deleted(found, RunnerNames(chosen), api);
      && Controlled(after, o) == NamesWhere(rest, Anyone())
      && Controlled(after, o) <= Controlled(found, o) && Controlled(after, o) <= after.Keys
      && (forall n :: n in after ==> n in found && after[n] == found[n])
  {
    var after := Deleted(found, RunnerNames(chosen), api);
    forall n | n in NamesWhere(rest, Anyone()) ensures n in Controlled(after, o) {
      var r :| r in rest && r.name == n;
      assert r in kept && n in NamesWhere(kept, Anyone());
    }
    forall n | n in Controlled(after, o) ensures n in NamesWhere(rest, Anyone()) {
      assert n in Controlled(found, o);
      var r :| r in kept && r.name == n;
      assert r in chosen ==> n in RunnerNames(chosen);
    }
  }

  /** A pass over a settled fleet does nothing at all: it adopts, creates and deletes no runner. */
  lemma SettledPassDoesNothing(o: RunnerSet, rev: string, before: Runners, after: Runners, p: Pass)
    requires KeyedRunners(before) && Passes(o, rev, before, after, p) && FleetSettled(before, o, rev)
    ensures after == before && p.births == {} && !p.failed
  {
    hide RetainedOf, Found, ListsRunners, ReorderedFor, CreatesAccepted, WithBirths, FleetSettled;
    SettledKept(o, rev, before, p);
    FoundNothing(o, rev, before, p.api);
    var kept := RetainedOf(p.list, o, rev, p.api);
    assert ReorderedFor(kept, p.order, o.desired) && |kept| == o.desired;
    OrderHoldsKept(kept, p.order, o.desired);
    assert Chosen(p.order, o.desired) == [];
    assert RunnerNames([]) == {};
  }

  lemma FoundNothing(o: RunnerSet, rev: string, before: Runners, api: FleetApi)
    requires KeyedRunners(before) && FleetSettled(before, o, rev)
    ensures Found(before, o, rev, api) == before
  {
    forall n | n in before && Selected(before[n], o) ensures AfterFind(before[n], o, rev, api) == Some(before[n]) {
      assert before[n].controller == Some(o.uid) ==> n in Controlled(before, o);
    }
    hide AfterFind, FleetSettled, Selected;
  }

  lemma SettledKept(o: RunnerSet, rev: string, before: Runners, p: Pass)
    requires KeyedRunners(before) && ListsRunners(p.list, before, o) && FleetSettled(before, o, rev)
    ensures |RetainedOf(p.list, o, rev, p.api)| == o.desired
  {
    hide RetainedOf, Found, Count, Selected;
    var kept := RetainedOf(p.list, o, rev, p.api);
    KeptInStore(p.list, before, o, rev, p.api);
    forall n | n in Controlled(before, o) ensures n in NamesWhere(kept, Anyone()) {
      assert Adopted(before[n], o) == before[n];
      assert Adopted(before[n], o) in kept;
    }
    forall n | n in NamesWhere(kept, Anyone()) ensures n in Controlled(before, o) {
      var r :| r in kept && r.name == n;
    }
    assert Controlled(before, o) == NamesWhere(kept, Anyone());
    NamesCounted(kept, Anyone());
    CountAll(kept, Anyone());
  }

  /* ---- rolling update ---- */

  /** A deleted runner that can no longer be retained: complete, or idle under an update strategy that drops it. */
  predicate OnItsWayOut(r: Runner, o: RunnerSet) {
    r.terminating && (r.phase == Complete || (r.phase == Idle && o.rolling))
  }

  /** The runners of another revision that are not on their way out. */
  ghost function Stale(runners: Runners, o: RunnerSet, rev: string): set<string> {
    set n | n in runners && Selected(runners[n], o) && Mine(runners[n], o)
            && LabelOf(runners[n].labels) != rev && !OnItsWayOut(runners[n], o)
  }

  ghost function Droppable(runners: Runners): set<string> {
    set n | n in runners && runners[n].phase in {Idle, Complete}
  }

  /** The stale runners a pass retains are stale ones that are neither idle nor complete; with adoptions accepted they
      are all of those. */
  lemma StaleRetained(o: RunnerSet, rev: string, before: Runners, p: Pass)
    requires KeyedRunners(before) && ListsRunners(p.list, before, o) && o.rolling
    ensures var kept := RetainedOf(p.list, o, rev, p.api);
      && |kept| - Count(kept, HasRevision(rev)) <= |Stale(before, o, rev) - Droppable(before)|
      && (AdoptsAccepted(p.api) ==>
            |kept| - Count(kept, HasRevision(rev)) == |Stale(before, o, rev) - Droppable(before)|)
  {
    hide RetainedOf, FateOf, Count, Stale, Droppable, AdoptsAccepted;
    var kept := RetainedOf(p.list, o, rev, p.api);
    var other := (r: Runner) => LabelOf(r.labels) != rev;
    var pending := Stale(before, o, rev) - Droppable(before);
    KeptInStore(p.list, before, o, rev, p.api);
    forall n | n in NamesWhere(kept, other) ensures n in pending {
      var r :| r in kept && r.name == n && other(r);
      KeptIsAdopted(p.list, before, o, rev, p.api, r);
      StaleFate(o, rev, before, p.api, n);
    }
    SubsetSize(NamesWhere(kept, other), pending);
    if AdoptsAccepted(p.api) {
      forall n | n in pending ensures n in NamesWhere(kept, other) {
        StaleFate(o, rev, before, p.api, n);
        assert Adopted(before[n], o) in kept;
      }
      assert pending == NamesWhere(kept, other);
    }
    NamesCounted(kept, other);
    CountComplement(kept, HasRevision(rev), other);
  }

  lemma StaleFate(o: RunnerSet, rev: string, before: Runners, api: FleetApi, n: string)
    requires KeyedRunners(before) && o.rolling
    ensures
      var due := n in Stale(before, o, rev) - Droppable(before);
      var retained := n in before && Selected(before[n], o) && LabelOf(before[n].labels) != rev
                      && FateOf(before[n], o, rev, api) == Retained;
      && (retained ==> due) && (due && AdoptsAccepted(api) ==> retained)
      && (due ==> n in before && Selected(before[n], o) && LabelOf(before[n].labels) != rev)
  {
  }

  /** A pass makes no runner stale, whatever calls are refused and whatever the update strategy; and it leaves the
      stale ones that are neither idle nor complete to the scaling decision alone. */
  lemma PassAddsNoStale(o: RunnerSet, rev: string, before: Runners, after: Runners, p: Pass)
    requires KeyedRunners(before) && Passes(o, rev, before, after, p)
    ensures Stale(after, o, rev) <= Stale(before, o, rev)
    ensures var found := Found(before, o, rev, p.api);
      forall n :: n in Stale(before, o, rev) - Droppable(before) ==>
        n in found && found[n] in {before[n], Adopted(before[n], o)}
  {
    hide RetainedOf, ReorderedFor, Chosen;
    BirthsHaveRevision(o, rev, before, after, p);
    forall n | n in Stale(after, o, rev) ensures n in Stale(before, o, rev) {
      StaleWasThere(o, rev, before, after, p, n);
    }
  }

  /** Where adoptions and deletes are accepted, a pass under RollingUpdate gets rid of every stale idle or complete
      runner. */
  lemma PassReducesStale(o: RunnerSet, rev: string, before: Runners, after: Runners, p: Pass)
    requires KeyedRunners(before) && Passes(o, rev, before, after, p) && FindAccepted(p.api) && o.rolling
    ensures Stale(after, o, rev) <= Stale(before, o, rev) - Droppable(before)
  {
    hide RetainedOf, ReorderedFor, Chosen;
    BirthsHaveRevision(o, rev, before, after, p);
    forall n | n in Stale(after, o, rev) ensures n in Stale(before, o, rev) - Droppable(before) {
      StaleWasThere(o, rev, before, after, p, n);
    }
  }

  lemma BirthsHaveRevision(o: RunnerSet, rev: string, before: Runners, after: Runners, p: Pass)
    requires Passes(o, rev, before, after, p)
    ensures forall n :: n in p.births ==> n in after && LabelOf(after[n].labels) == rev
  {
    hide RetainedOf, ReorderedFor, Chosen, Found, ListsRunners;
  }

  lemma StaleWasThere(o: RunnerSet, rev: string, before: Runners, after: Runners, p: Pass, n: string)
    requires KeyedRunners(before) && Passes(o, rev, before, after, p)
    requires n in Stale(after, o, rev) && n !in p.births
    ensures n in Stale(before, o, rev)
    ensures FindAccepted(p.api) && o.rolling ==> n !in Droppable(before)
  {
    hide RetainedOf, ReorderedFor, Chosen, Found, Deleted, WithBirths, Droppable;
    var found, kept := Found(before, o, rev, p.api), RetainedOf(p.list, o, rev, p.api);
    KeptInStore(p.list, before, o, rev, p.api);
    SyncRespects(o, rev, found, kept, after, p, n);
    StaleFound(o, rev, before, p.api, n);
  }

  lemma StaleFound(o: RunnerSet, rev: string, before: Runners, api: FleetApi, n: string)
    requires KeyedRunners(before) && n in Stale(Found(before, o, rev, api), o, rev)
    ensures n in Stale(before, o, rev)
    ensures FindAccepted(api) && o.rolling ==> n !in Droppable(before)
  {
    hide Selected, LabelOf, KeyedRunners;
  }

  /** How runners change between passes when no stale orphan appears: labels stay, controllers are not taken back,
      deletions are not undone, and a runner being deleted changes phase only from Active to Complete. */
  predicate Evolves(a: Runner, b: Runner) {
    && b.name == a.name && b.labels == a.labels
    && (a.controller.Some? ==> b.controller == a.controller)
    && (a.terminating ==> b.terminating && (b.phase == a.phase || (a.phase == Active && b.phase == Complete)))
  }

  ghost predicate NoNewStale(o: RunnerSet, rev: string, a: Runners, b: Runners) {
    forall n :: n in b ==>
      || (n in a && Evolves(a[n], b[n]))
      || !Selected(b[n], o) || !Mine(b[n], o) || LabelOf(b[n].labels) == rev
  }

  ghost predicate RollingStep(o: RunnerSet, rev: string, step: Option<Pass>, a: Runners, b: Runners) {
    match step
    case Some(p) => Passes(o, rev, a, b, p)
    case None => KeyedRunners(b) && NoNewStale(o, rev, a, b)
  }

  /** Along any run with one template, whatever calls are refused, the stale runners only become fewer; under
      RollingUpdate those idle or complete at a pass whose adoptions and deletes are accepted are gone for good. */
  lemma {:induction false} StaleNeverGrows(o: RunnerSet, rev: string, states: seq<Runners>, steps: seq<Option<Pass>>)
    requires |states| == |steps| + 1 && KeyedRunners(states[0])
    requires forall i :: 0 <= i < |steps| ==> RollingStep(o, rev, steps[i], states[i], states[i + 1])
    ensures Stale(states[|steps|], o, rev) <= Stale(states[0], o, rev)
    ensures |steps| > 0 && steps[0].Some? && FindAccepted(steps[0].value.api) && o.rolling ==>
      Stale(states[|steps|], o, rev) <= Stale(states[0], o, rev) - Droppable(states[0])
    ensures KeyedRunners(states[|steps|])
  {
    if steps != [] {
      var a, b := states[0], states[1];
      assert RollingStep(o, rev, steps[0], a, b);
      if steps[0].Some? {
        PassAddsNoStale(o, rev, a, b, steps[0].value);
        if FindAccepted(steps[0].value.api) && o.rolling { PassReducesStale(o, rev, a, b, steps[0].value); }
        PassKeepsKeys(o, rev, a, b, steps[0].value);
      } else {
        EnvironmentKeepsStale(o, rev, a, b);
      }
      StaleNeverGrows(o, rev, states[1..], steps[1..]);
      assert states[1..][|steps| - 1] == states[|steps|];
    }
  }

  lemma EnvironmentKeepsStale(o: RunnerSet, rev: string, a: Runners, b: Runners)
    requires NoNewStale(o, rev, a, b)
    ensures Stale(b, o, rev) <= Stale(a, o, rev)
  {
  }

  /** The number of retained runners with another revision's label, as the reconciler counts it at a pass whose
      adoptions and deletes are accepted, is never higher at any later pass, and is lower by every stale runner that has
      become idle or complete in between. */
  lemma RetainedStaleNeverIncreases(
    o: RunnerSet, rev: string, states: seq<Runners>, steps: seq<Option<Pass>>, first: Pass, later: Pass)
    requires |states| == |steps| + 1 && |steps| > 0 && steps[0] == Some(first) && KeyedRunners(states[0]) && o.rolling
    requires forall i :: 0 <= i < |steps| ==> RollingStep(o, rev, steps[i], states[i], states[i + 1])
    requires ListsRunners(later.list, states[|steps|], o) && FindAccepted(first.api)
    ensures
      var then_, now := RetainedOf(first.list, o, rev, first.api), RetainedOf(later.list, o, rev, later.api);
      var end := states[|steps|];
      |now| - Count(now, HasRevision(rev)) + |Stale(end, o, rev) * Droppable(end)|
      <= |then_| - Count(then_, HasRevision(rev))
  {
    hide RetainedOf, Count, Stale, Droppable;
    var end := states[|steps|];
    assert RollingStep(o, rev, steps[0], states[0], states[1]);
    StaleNeverGrows(o, rev, states, steps);
    StaleRetained(o, rev, states[0], first);
    StaleRetained(o, rev, end, later);
    var s, d := Stale(end, o, rev), Droppable(end);
    assert s == (s - d) + (s * d);
    SubsetSize(s, Stale(states[0], o, rev) - Droppable(states[0]));
  }
}
