/** The RunnerSet reconciler and the revision history engine as the programs they are, over an object store, each
    method proved against the functions and relations of the other modules. */
module RunnerSetController {
  import opened Strings
  import opened Slices
  import opened Revisions
  import opened History
  import opened HistoryProperties
  import opened Truncation
  import opened Fleet
  import opened FleetProperties
  import opened Reconcile

  /** The RunnerSet a pass works on. It is written back at the end of the pass. */
  class RunnerSetObject {
    var value: RunnerSet

    constructor (value: RunnerSet)
      ensures this.value == value
    {
      this.value := value;
    }
  }

  /* ---- the slice of runners ---- */

  /** sort.Sort(RunnersToDelete(a)): callers may rely on no more than a sorted permutation. */
  method SortForDelete(a: array<Runner>)
    modifies a
    ensures SortedForDelete(a[..])
    ensures multiset(a[..]) == multiset(old(a[..]))
  {
    for i := 0 to a.Length
      invariant SortedForDelete(a[..i])
      invariant multiset(a[..]) == multiset(old(a[..]))
    {
      var j := i;
      while j > 0 && DeleteFirst(a[j], a[j - 1])
        invariant 0 <= j <= i
        invariant forall p, q :: 0 <= p < q <= i && q != j ==> !DeleteFirst(a[q], a[p])
        invariant multiset(a[..]) == multiset(old(a[..]))
      {
        Swap(a, j, j - 1);
        j := j - 1;
      }
    }
    assert a[..a.Length] == a[..];
  }

  /** prioritizedRunnersToDelete: all of the slice, none of it, or the front of it once sorted. */
  method TakeForDeletion(slice: array<Runner>, desired: int) returns (chosen: seq<Runner>)
    modifies slice
    ensures ReorderedFor(old(slice[..]), slice[..], desired) && chosen == Chosen(slice[..], desired)
    ensures multiset(slice[..]) == multiset(old(slice[..]))
  {
    var diff := slice.Length - desired;
    if diff >= slice.Length {
      chosen := slice[..];
    } else if diff <= 0 {
      chosen := [];
      assert slice[..][..0] == [];
    } else {
      SortForDelete(slice);
      chosen := slice[..diff];
    }
  }

  /** The API server's objects, as one reconciler sees them. */
  class Reconciler {
    var revisions: Store
    var runners: Runners
    var runnerset: RunnerSet
    /** Every runner name the server has given out; it does not give one out twice. */
    var issued: set<string>

    ghost predicate Valid()
      reads this
    {
      Keyed(revisions) && KeyedRunners(runners) && runners.Keys <= issued
    }

    ghost function View(): World
      reads this
    {
      World(revisions, runners, runnerset)
    }

    constructor (runnerset: RunnerSet)
      ensures Valid() && View() == World(map[], map[], runnerset)
    {
      revisions, runners, issued := map[], map[], {};
      this.runnerset := runnerset;
    }

    /* ---- pkg/revision/revision.go ---- */

    /** The revisions the owner controls, in any order; none when a selected revision has no controller to read. */
    method ListRevision(o: RunnerSet) returns (list: Option<seq<ControllerRevision>>)
      requires Valid()
      ensures list.None? <==> HasUncontrolled(revisions, o)
      ensures list.Some? ==> Lists(list.value, Owned(revisions, o))
    {
      var items := ListMatching(o.selector);
      var owned := [];
      for i := 0 to |items|
        invariant DistinctNames(owned)
        invariant forall r :: r in owned <==> r in items[..i] && r.controller == Some(o.uid)
        invariant forall r :: r in items[..i] ==> r.controller.Some?
      {
        assert items[..i + 1] == items[..i] + [items[i]];
        if items[i].controller.None? {
          assert items[i] in items;
          return None;
        }
        if items[i].controller == Some(o.uid) {
          forall r | r in owned ensures r.name != items[i].name {
            var k :| 0 <= k < i && items[k] == r;
          }
          owned := owned + [items[i]];
        }
      }
      assert items[..|items|] == items;
      return Some(owned);
    }

    /** A list call with a label selector. */
    method ListMatching(selector: Labels) returns (items: seq<ControllerRevision>)
      requires Valid()
      ensures DistinctNames(items)
      ensures forall r :: r in items <==> r.name in revisions && revisions[r.name] == r && Matches(selector, r.labels)
    {
      var names := revisions.Keys;
      items := [];
      while names != {}
        invariant names <= revisions.Keys && DistinctNames(items)
        invariant forall r :: r in items <==>
          r.name in revisions.Keys - names && revisions[r.name] == r && Matches(selector, r.labels)
        decreases names
      {
        var n :| n in names;
        names := names - {n};
        if Matches(selector, revisions[n].labels) { items := items + [revisions[n]]; }
      }
    }

    /** retry.RetryOnConflict around the update of a listed revision's number. */
    method UpdateNumber(rev: ControllerRevision, number: int, replies: nat -> Reply)
      returns (ok: bool, updated: ControllerRevision)
      requires rev.name in revisions && revisions[rev.name] == rev
      modifies this`revisions
      ensures (if ok then Some(Write(updated, revisions)) else None) == Bump(old(revisions), rev, number, replies)
      ensures !ok ==> revisions == old(revisions)
    {
      updated := rev;
      for attempt := 0 to BACKOFF_STEPS
        invariant revisions == old(revisions) && attempt <= 1
        invariant attempt == 0 ==> updated == rev
        invariant attempt > 0 ==> updated == rev.(number := number) && rev.number != number && replies(0) == Conflict
      {
        if updated.number == number { return true, updated; }
        updated := updated.(number := number);
        match replies(attempt) {
          case Accepted =>
            revisions := revisions[updated.name := updated];
            updated := revisions[updated.name];
            return true, updated;
          case Conflict =>
          case Failed =>
            return false, updated;
        }
      }
      ok := false;
    }

    /** The create loop. A clash with other data bumps the count and tries the same name again. */
    method CreateNext(next: ControllerRevision, collision: int, api: Api) returns (created: Creation)
      modifies this`revisions
      ensures created == CreateLoop(old(revisions), next, collision, api, 0)
      ensures revisions == if created.Stored? then created.revs else old(revisions)
    {
      var count := collision;
      for i := 0 to api.rounds
        invariant revisions == old(revisions)
        invariant CreateLoop(revisions, next, count, api, i) == CreateLoop(revisions, next, collision, api, 0)
      {
        if api.replies(i) != Accepted { return CreateRejected; }
        if next.name !in revisions {
          var stored := next.(created := api.now);
          revisions := revisions[next.name := stored];
          return Stored(stored, revisions, count);
        }
        var exists_ := revisions[next.name];
        if exists_.raw == next.raw { return Stored(exists_, revisions, count); }
        count := count + 1;
      }
      return StillColliding(count);
    }

    /** The three-way branch: reuse the latest revision, renumber an older equal one, or create a new one. */
    method SettleTemplate(
      o: RunnerSet, sorted: seq<ControllerRevision>, equal: seq<ControllerRevision>, next: ControllerRevision, api: Api)
      returns (attempt: Attempt)
      requires Valid() && (|equal| > 0 ==> |sorted| > 0)
      requires forall r :: r in equal ==> r.name in revisions && revisions[r.name] == r
      modifies this`revisions
      ensures attempt == Carry(old(revisions), o, PlanFrom(sorted, equal, next), api)
      ensures revisions == if attempt.Wrote? then attempt.write.revs else old(revisions)
      ensures Keyed(revisions)
    {
      var collision := CollisionCount(o);
      if |equal| > 0 && IsEqual(sorted[|sorted| - 1], equal[|equal| - 1]) {
        attempt := Wrote(Write(sorted[|sorted| - 1], revisions), collision);
      } else if |equal| > 0 {
        var last := equal[|equal| - 1];
        assert last in equal;
        var ok, updated := UpdateNumber(last, next.number, api.replies);
        attempt := if ok then Wrote(Write(updated, revisions), collision) else WriteRejected;
      } else {
        var created := CreateNext(next, collision, api);
        if created.Stored? { CreateLoopStored(old(revisions), next, collision, api); }
        match created {
          case CreateRejected => attempt := WriteRejected;
          case StillColliding(count) => attempt := WriteColliding(count);
          case Stored(stored, revs, count) => attempt := Wrote(Write(stored, revs), count);
        }
      }
    }

    method ListSorted(o: RunnerSet) returns (sorted: Option<seq<ControllerRevision>>)
      requires Valid()
      ensures sorted.None? <==> HasUncontrolled(revisions, o)
      ensures sorted.Some? ==> sorted.value == Ascending(Owned(revisions, o))
    {
      var list := ListRevision(o);
      if list.None? { return None; }
      var slice := new ControllerRevision[|list.value|](i requires 0 <= i < |list.value| => list.value[i]);
      assert slice[..] == list.value;
      SortStable(slice);
      SortedListing(list.value, slice[..], revisions, o);
      return Some(slice[..]);
    }

    /** MakeHistory does what its specification says, in whatever order ListRevision returns its items. */
    method MakeHistory(h: Hasher, owner: RunnerSetObject, api: Api) returns (outcome: Outcome)
      requires Valid()
      modifies this`revisions, owner
      ensures Result(outcome, revisions, owner.value) == History.MakeHistory(h, old(revisions), old(owner.value), api)
      ensures Keyed(revisions)
    {
      var o := owner.value;
      ghost var before := revisions;
      var list := ListSorted(o);
      if list.None? { return NilController; }
      var sorted := list.value;
      var next := NextRevision(h, o, NextNumber(sorted));
      var equal := FindEqual(sorted, next);
      assert Decide(h, before, o) == PlanFrom(sorted, equal, next);
      assert forall r :: r in sorted <==> r in Owned(before, o);
      hide PlanFrom, Sorted, Lists, DistinctNames, HasUncontrolled, Finish, Carry, Decide;
      hide NextRevision, NextNumber, EqualsOf;
      EqualsStored(sorted, equal, before, o);
      hide Owned;
      var attempt := SettleTemplate(o, sorted, equal, next, api);
      assert attempt == Carry(before, o, Decide(h, before, o), api);
      match attempt {
        case WriteRejected => outcome := Rejected;
        case WriteColliding(count) => outcome := Colliding(count);
        case Wrote(write, count) => outcome := UpdatePointers(owner, sorted, before, write, count);
      }
    }

    method UpdatePointers(
      owner: RunnerSetObject, list: seq<ControllerRevision>, ghost listed: Store, write: Write, count: int)
      returns (outcome: Outcome)
      requires Keyed(listed) && forall r :: r in list <==> r in Owned(listed, owner.value)
      modifies owner
      ensures Result(outcome, write.revs, owner.value) == Finish(listed, old(owner.value), write, count)
    {
      var o := owner.value;
      var current := o.status.current;
      if current != "" {
        var found := HasName(list, current);
        NameListed(list, listed, o, current);
        if !found { return NilCurrent; }
      } else {
        current := write.rev.name;
      }
      owner.value := o.(status := o.status.(current := current, next := write.rev.name, collision := Some(count)));
      outcome := Made(write.rev);
    }

    method HasName(list: seq<ControllerRevision>, name: string) returns (found: bool)
      ensures found <==> exists r :: r in list && r.name == name
    {
      found := false;
      for i := 0 to |list|
        invariant found <==> exists k :: 0 <= k < i && list[k].name == name
      {
        if list[i].name == name { found := true; }
      }
    }

    /** TruncateHistory over a fresh listing, which it does not sort. */
    method TruncateHistory(o: RunnerSet, controlled: seq<Labels>, succeeding: nat)
      returns (result: Truncated, ghost listing: seq<ControllerRevision>)
      requires Valid() && !HasUncontrolled(revisions, o)
      modifies this`revisions
      ensures Lists(listing, Owned(old(revisions), o))
      ensures result == Truncate(old(revisions), o, listing, controlled, succeeding) && revisions == result.revs
      ensures Keyed(revisions)
    {
      var list := ListRevision(o);
      listing := list.value;
      hide Referenced, Unreferenced, Prune;
      var excluded := Excluded(o, controlled);
      var histories := NotExcluded(list.value, excluded);
      result := PruneHistories(histories, o.limit, |list.value|, succeeding);
    }

    method Excluded(o: RunnerSet, controlled: seq<Labels>) returns (excluded: set<string>)
      ensures excluded == Referenced(o, controlled)
    {
      excluded := {};
      if o.status.current != "" { excluded := excluded + {o.status.current}; }
      if o.status.next != "" { excluded := excluded + {o.status.next}; }
      ghost var pointers := excluded;
      for i := 0 to |controlled|
        invariant excluded == pointers + RunnerLabels(controlled[..i])
      {
        assert controlled[..i + 1] == controlled[..i] + [controlled[i]];
        if controlled[i] != map[] { excluded := excluded + {LabelOf(controlled[i])}; }
      }
      assert controlled[..|controlled|] == controlled;
    }

    method NotExcluded(list: seq<ControllerRevision>, excluded: set<string>)
      returns (histories: seq<ControllerRevision>)
      ensures histories == Unreferenced(list, excluded)
    {
      histories := [];
      for i := 0 to |list|
        invariant histories == Unreferenced(list[..i], excluded)
      {
        assert list[..i + 1][..i] == list[..i];
        if list[i].name !in excluded { histories := histories + [list[i]]; }
      }
      assert list[..|list|] == list;
    }

    method PruneHistories(histories: seq<ControllerRevision>, limit: int, listed: nat, succeeding: nat)
      returns (result: Truncated)
      requires Valid()
      modifies this`revisions
      ensures result == Prune(old(revisions), histories, limit, listed, succeeding)
      ensures revisions == result.revs && Keyed(revisions)
    {
      if |histories| <= limit { return Kept(revisions); }
      var cut := |histories| - limit;
      if cut > listed { return SliceOutOfRange(revisions); }
      assert histories[..0] == [];
      assert revisions - NamesOf([]) == revisions;
      for i := 0 to cut
        invariant i <= |histories| && i <= succeeding
        invariant revisions == old(revisions) - NamesOf(histories[..i])
      {
        if i >= |histories| || i >= succeeding {
          assert i == |histories| ==> histories[..i] == histories;
          return DeleteFailed(revisions);
        }
        assert histories[..i + 1] == histories[..i] + [histories[i]];
        revisions := revisions - {histories[i].name};
      }
      return Kept(revisions);
    }

    /* ---- controllers/runnerset_controller.go ---- */

    method ListRunners(o: RunnerSet) returns (list: seq<Runner>)
      requires Valid()
      ensures ListsRunners(list, runners, o)
    {
      var names := runners.Keys;
      list := [];
      while names != {}
        invariant names <= runners.Keys && Distinct(list)
        invariant forall r :: r in list <==> r.name in runners.Keys - names && runners[r.name] == r && Selected(r, o)
        decreases names
      {
        var n :| n in names;
        names := names - {n};
        if Selected(runners[n], o) { list := list + [runners[n]]; }
      }
    }

    /** Makes the owner the controller of an orphan; a runner that has a controller is left as it is. */
    method AdoptRunner(o: RunnerSet, runner: Runner, api: FleetApi) returns (ok: bool, adopted: Runner)
      requires Valid() && runner.name in runners && runners[runner.name] == runner
      requires runner.controller in {None, Some(o.uid)}
      modifies this`runners
      ensures Valid() && ok == (runner.controller.Some? || api.adopts(runner.name))
      ensures runners == if ok then old(runners)[runner.name := adopted] else old(runners)
      ensures ok ==> adopted == Adopted(runner, o)
    {
      if runner.controller.Some? {
        assert runners == runners[runner.name := runner];
        return true, runner;
      }
      adopted := runner.(controller := Some(o.uid));
      if !api.adopts(runner.name) { return false, adopted; }
      runners := runners[runner.name := adopted];
      return true, adopted;
    }

    /** A delete call; a runner that is not there counts as deleted. */
    method DeleteRunner(name: string, api: FleetApi) returns (ok: bool)
      requires Valid()
      modifies this`runners
      ensures Valid() && ok == api.deletes(name)
      ensures runners ==
        if !ok || name !in old(runners) then old(runners)
        else match AfterDelete(old(runners)[name])
          case Some(r) => old(runners)[name := r]
          case None => old(runners) - {name}
    {
      ok := api.deletes(name);
      if ok && name in runners {
        if runners[name].finalizers {
          runners := runners[name := runners[name].(terminating := true)];
        } else {
          runners := runners - {name};
        }
      }
    }

    /** One iteration of findRunners. */
    method HandleRunner(o: RunnerSet, rev: string, runner: Runner, api: FleetApi) returns (kept: Option<Runner>)
      requires Valid() && runner.name in runners && runners[runner.name] == runner
      modifies this`runners
      ensures Valid()
      ensures kept == if FateOf(runner, o, rev, api) == Retained then Some(Adopted(runner, o)) else None
      ensures runners == match AfterFind(runner, o, rev, api)
        case Some(r) => old(runners)[runner.name := r]
        case None => old(runners) - {runner.name}
    {
      assert runners == runners[runner.name := runner];
      if runner.controller.Some? && runner.controller != Some(o.uid) { return None; }
      var ok, adopted := AdoptRunner(o, runner, api);
      if !ok { return None; }
      match adopted.phase {
        case Idle =>
          if o.rolling && LabelOf(adopted.labels) != rev {
            var _ := DeleteRunner(adopted.name, api);
            return None;
          }
        case Complete =>
          var _ := DeleteRunner(adopted.name, api);
          return None;
        case _ =>
      }
      return Some(adopted);
    }

    /** findRunners: the runners to keep, and the owner's counts of them. */
    method FindRunners(owner: RunnerSetObject, rev: string, api: FleetApi)
      returns (kept: seq<Runner>, ghost list: seq<Runner>)
      requires Valid()
      modifies this`runners, owner
      ensures Valid() && ListsRunners(list, old(runners), old(owner.value))
      ensures kept == RetainedOf(list, old(owner.value), rev, api)
      ensures runners == Found(old(runners), old(owner.value), rev, api)
      ensures owner.value == Counted(old(owner.value), kept)
    {
      var o := owner.value;
      ghost var before := runners;
      var items := ListRunners(o);
      list := items;
      var idle, active := 0, 0;
      kept := [];
      assert runners == FoundAmong(before, o, rev, api, {});
      assert items[..0] == [] && RunnerNames([]) == {};
      ghost var p, q := IsIdle(), IsActive();
      assert Count([], p) == 0 && Count([], q) == 0;
      hide RetainedOf, Count, FoundAmong, AfterFind, FateOf, RunnerNames, IsIdle, IsActive;
      for i := 0 to |items|
        invariant Valid()
        invariant kept == RetainedOf(items[..i], o, rev, api)
        invariant idle == Count(kept, p) && active == Count(kept, q)
        invariant runners == FoundAmong(before, o, rev, api, RunnerNames(items[..i]))
      {
        var runner := items[i];
        NotYetSeen(items, i);
        assert runner.name in runners && runners[runner.name] == runner;
        var handled := HandleRunner(o, rev, runner, api);
        FoundStep(before, o, rev, api, RunnerNames(items[..i]), runner.name);
        RetainedStep(items, i, o, rev, api);
        if handled.Some? {
          CountStep(kept, handled.value);
          kept := kept + [handled.value];
          if handled.value.phase == Idle { idle := idle + 1; }
          if handled.value.phase == Active { active := active + 1; }
        }
      }
      assert items[..|items|] == items;
      AllListed(items, before, o);
      owner.value := o.(status := o.status.(runners := |kept|, idle := idle, active := active));
    }

    /** The server's name for an object created with generateName. */
    method GenerateName(prefix: string) returns (name: string)
      modifies this`issued
      ensures name !in old(issued) && issued == old(issued) + {name}
    {
      var rest, longest: nat := issued, 0;
      while rest != {}
        invariant rest <= issued && forall n :: n in issued - rest ==> |n| <= longest
        decreases rest
      {
        var n :| n in rest;
        rest := rest - {n};
        if |n| > longest { longest := |n|; }
      }
      name := prefix + seq(longest + 1, _ => 'x');
      assert name in issued ==> name in issued - rest;
      issued := issued + {name};
    }

    /** One create call, under a generated name. */
    method CreateRunner(o: RunnerSet, rev: string, accepted: bool) returns (name: string)
      requires Valid()
      modifies this`runners, this`issued
      ensures Valid() && name !in old(issued) && issued == old(issued) + {name}
      ensures runners == if accepted then old(runners)[name := Newborn(o, rev, name)] else old(runners)
    {
      name := GenerateName(o.name + "-");
      if accepted { runners := runners[name := Newborn(o, rev, name)]; }
    }

    /** Creates `missing` runners from the template; `births` are the names of those the server accepted. */
    method CreateRunners(o: RunnerSet, rev: string, missing: nat, api: FleetApi)
      returns (failed: bool, ghost births: set<string>)
      requires Valid()
      modifies this`runners, this`issued
      ensures Valid() && births !! old(issued) && |births| == CreatesAccepted(api, missing)
      ensures runners == WithBirths(old(runners), o, rev, births)
      ensures failed <==> |births| < missing
    {
      failed, births := false, {};
      assert runners == WithBirths(runners, o, rev, {});
      assert CreatesAccepted(api, 0) == 0;
      hide WithBirths, Newborn, KeyedRunners, Keyed, CreatesAccepted;
      for i := 0 to missing
        invariant Valid() && old(issued) <= issued && forall n :: n in births ==> n in issued && n !in old(issued)
        invariant |births| == CreatesAccepted(api, i) <= i && (failed <==> |births| < i)
        invariant runners == WithBirths(old(runners), o, rev, births)
      {
        CreatesStep(api, i);
        var name := CreateRunner(o, rev, api.creates(i));
        BirthStep(old(runners), o, rev, births, name);
        if api.creates(i) { births := births + {name}; } else { failed := true; }
      }
    }

    /** Deletes the chosen runners one after the other, carrying on after failures. */
    method DeleteRunners(chosen: seq<Runner>, api: FleetApi) returns (failed: bool)
      requires Valid()
      modifies this`runners
      ensures Valid() && runners == Deleted(old(runners), RunnerNames(chosen), api)
      ensures failed <==> exists r :: r in chosen && !api.deletes(r.name)
    {
      failed := false;
      assert runners == Deleted(runners, {}, api);
      for i := 0 to |chosen|
        invariant Valid() && runners == Deleted(old(runners), RunnerNames(chosen[..i]), api)
        invariant failed <==> exists r :: r in chosen[..i] && !api.deletes(r.name)
      {
        DeletedStep(old(runners), RunnerNames(chosen[..i]), chosen[i].name, api);
        assert chosen[..i + 1] == chosen[..i] + [chosen[i]];
        assert RunnerNames(chosen[..i + 1]) == RunnerNames(chosen[..i]) + {chosen[i].name};
        var ok := DeleteRunner(chosen[i].name, api);
        if !ok { failed := true; }
      }
      assert chosen[..|chosen|] == chosen;
    }

    /** syncRunners on the caller's slice, which it may reorder in place. */
    method SyncRunners(o: RunnerSet, slice: array<Runner>, rev: string, api: FleetApi)
      returns (failed: bool, ghost births: set<string>)
      requires Valid()
      modifies this`runners, this`issued, slice
      ensures Valid() && births !! old(issued)
      ensures Synced(o, rev, old(runners), old(slice[..]), api, runners, slice[..], births, failed)
      ensures multiset(slice[..]) == multiset(old(slice[..]))
    {
      births := {};
      hide Deleted, WithBirths, RunnerNames, CreatesAccepted, ReorderedFor, Chosen;
      if slice.Length < o.desired {
        failed, births := CreateRunners(o, rev, o.desired - slice.Length, api);
        NothingReordered(slice[..], o.desired);
      } else {
        var chosen := TakeForDeletion(slice, o.desired);
        failed := DeleteRunners(chosen, api);
      }
    }

    /** Commits what MakeHistory, findRunners and syncRunners left in the working copy. */
    method Reconcile(h: Hasher, env: Env) returns (ghost trace: Trace)
      requires Valid()
      modifies this
      ensures Reconciles(h, old(View()), View(), env, trace)
      ensures Valid()
    {
      ghost var before := View();
      var owner := new RunnerSetObject(runnerset);
      var outcome := MakeHistory(h, owner, env.history);
      trace := Trace(Pass([], [], {}, env.fleet, false), []);
      if !outcome.Made? {
        runnerset := owner.value;
        return;
      }
      LeavesControlled(h, before.revs, before.owner, env.history);
      hide History.MakeHistory, AfterHistory, HasUncontrolled;
      trace := ReconcileRunners(owner, outcome.rev.name, env);
    }

    method ReconcileRunners(owner: RunnerSetObject, rev: string, env: Env)
      returns (ghost trace: Trace)
      requires Valid() && !HasUncontrolled(revisions, owner.value)
      modifies this, owner
      ensures Valid()
      ensures AfterHistory(old(runnerset), old(revisions), old(owner.value), rev, old(runners), View(), env, trace)
    {
      hide Found, RetainedOf, Synced, Truncate, HasUncontrolled, Owned, Lists, ListsRunners, Count;
      ghost var o := owner.value;
      var kept;
      ghost var list;
      kept, list := FindRunners(owner, rev, env.fleet);
      var slice := new Runner[|kept|](i requires 0 <= i < |kept| => kept[i]);
      assert slice[..] == kept;
      ghost var births;
      var failed;
      failed, births := SyncRunners(owner.value, slice, rev, env.fleet);
      ghost var pass := Pass(list, slice[..], births, env.fleet, failed);
      trace := Trace(pass, []);
      SameSync(o, owner.value, rev, Found(old(runners), o, rev, env.fleet), kept, runners, pass);
      assert Passes(o, rev, old(runners), runners, pass);
      if failed {
        if env.commits { runnerset := owner.value; }
        return;
      }
      var updated := CountUpdated(slice[..], rev);
      if owner.value.status.runners == updated {
        owner.value := owner.value.(status := owner.value.status.(current := rev));
      }
      assert owner.value == Moved(Counted(o, kept), slice[..], rev);
      SameControlled(revisions, o, owner.value);
      ghost var listing;
      var truncated;
      truncated, listing := TruncateHistory(owner.value, LabelsOf(slice[..]), env.truncates);
      trace := Trace(pass, listing);
      if env.commits { runnerset := owner.value; }
    }

    method CountUpdated(s: seq<Runner>, rev: string) returns (n: nat)
      ensures n == Count(s, HasRevision(rev))
    {
      n := 0;
      for i := 0 to |s|
        invariant n == Count(s[..i], HasRevision(rev))
      {
        assert s[..i + 1][..i] == s[..i];
        if LabelOf(s[i].labels) == rev { n := n + 1; }
      }
      assert s[..|s|] == s;
    }
  }

  lemma EqualsStored(sorted: seq<ControllerRevision>, equal: seq<ControllerRevision>, revs: Store, o: RunnerSet)
    requires Keyed(revs) && |equal| <= |sorted|
    requires forall r :: r in sorted <==> r in Owned(revs, o)
    requires forall r :: r in equal ==> r in sorted
    ensures |equal| > 0 ==> |sorted| > 0
    ensures forall r :: r in equal ==> r.name in revs && revs[r.name] == r
  {
  }

  lemma NameListed(list: seq<ControllerRevision>, revs: Store, o: RunnerSet, n: string)
    requires Keyed(revs) && forall r :: r in list <==> r in Owned(revs, o)
    ensures (exists r :: r in list && r.name == n) <==> n in revs && Listed(revs[n], o)
  {
    hide Listed;
    if n in revs && Listed(revs[n], o) { assert revs[n] in Owned(revs, o); }
  }

  /** Whatever order the items came in, the sorted slice is the ascending listing. */
  lemma SortedListing(list: seq<ControllerRevision>, sorted: seq<ControllerRevision>, revs: Store, o: RunnerSet)
    requires Keyed(revs) && Lists(list, Owned(revs, o))
    requires multiset(sorted) == multiset(list) && DistinctNames(sorted) && Sorted(sorted)
    ensures sorted == Ascending(Owned(revs, o))
  {
    forall r ensures r in sorted <==> r in list { assert r in multiset(sorted) <==> r in multiset(list); }
    SortedUnique(sorted, Ascending(Owned(revs, o)), Owned(revs, o));
  }

  lemma NotYetSeen(items: seq<Runner>, i: nat)
    requires Distinct(items) && i < |items|
    ensures items[i].name !in RunnerNames(items[..i])
    ensures RunnerNames(items[..i + 1]) == RunnerNames(items[..i]) + {items[i].name}
  {
    assert items[..i + 1] == items[..i] + [items[i]];
    forall r | r in items[..i] ensures r.name != items[i].name {
      var k :| 0 <= k < i && items[k] == r;
    }
  }

  lemma AllListed(items: seq<Runner>, runners: Runners, o: RunnerSet)
    requires ListsRunners(items, runners, o)
    requires KeyedRunners(runners)
    ensures RunnerNames(items) == SelectedNames(runners, o)
  {
    hide Selected;
    forall n | n in SelectedNames(runners, o) ensures n in RunnerNames(items) { assert runners[n] in items; }
  }

  lemma RetainedStep(items: seq<Runner>, i: nat, o: RunnerSet, rev: string, api: FleetApi)
    requires i < |items|
    ensures RetainedOf(items[..i + 1], o, rev, api) ==
      RetainedOf(items[..i], o, rev, api)
      + if FateOf(items[i], o, rev, api) == Retained then [Adopted(items[i], o)] else []
  {
    assert items[..i + 1][..i] == items[..i];
  }

  lemma CountStep(s: seq<Runner>, r: Runner)
    ensures Count(s + [r], IsIdle()) == Count(s, IsIdle()) + if r.phase == Idle then 1 else 0
    ensures Count(s + [r], IsActive()) == Count(s, IsActive()) + if r.phase == Active then 1 else 0
  {
    assert (s + [r])[..|s|] == s;
  }

  lemma FoundStep(before: Runners, o: RunnerSet, rev: string, api: FleetApi, seen: set<string>, n: string)
    requires n in before && n !in seen
    ensures
      var now := FoundAmong(before, o, rev, api, seen);
      && n in now && now[n] == before[n]
      && FoundAmong(before, o, rev, api, seen + {n}) ==
           match AfterFind(before[n], o, rev, api)
           case Some(r) => now[n := r]
           case None => now - {n}
  {
  }

  lemma DeletedStep(before: Runners, names: set<string>, n: string, api: FleetApi)
    ensures
      var now := Deleted(before, names, api);
      Deleted(before, names + {n}, api) ==
        if !api.deletes(n) || n !in now then now
        else match AfterDelete(now[n])
          case Some(r) => now[n := r]
          case None => now - {n}
  {
  }

  lemma BirthStep(before: Runners, o: RunnerSet, rev: string, births: set<string>, name: string)
    requires name !in before && name !in births
    ensures WithBirths(before, o, rev, births + {name})
         == WithBirths(before, o, rev, births)[name := Newborn(o, rev, name)]
    ensures WithBirths(before, o, rev, births).Keys == before.Keys + births
    ensures |births + {name}| == |births| + 1
  {
    hide Newborn;
    var now, next := WithBirths(before, o, rev, births), WithBirths(before, o, rev, births + {name});
    assert next.Keys == now[name := Newborn(o, rev, name)].Keys;
  }

  lemma CreatesStep(api: FleetApi, i: nat)
    ensures CreatesAccepted(api, i + 1) == CreatesAccepted(api, i) + if api.creates(i) then 1 else 0
  {
  }

  lemma NothingReordered(s: seq<Runner>, desired: int)
    requires |s| <= desired
    ensures ReorderedFor(s, s, desired) && Chosen(s, desired) == []
  {
  }

  /** The counts do not matter to syncRunners. */
  lemma SameSync(o: RunnerSet, o': RunnerSet, rev: string, found: Runners, kept: seq<Runner>, after: Runners, p: Pass)
    requires o'.(status := o.status) == o
    ensures Synced(o', rev, found, kept, p.api, after, p.order, p.births, p.failed)
        == Synced(o, rev, found, kept, p.api, after, p.order, p.births, p.failed)
  {
    hide Deleted, ReorderedFor, Chosen, CreatesAccepted;
    assert WithBirths(found, o', rev, p.births) == WithBirths(found, o, rev, p.births);
  }

  lemma SameControlled(revs: Store, o: RunnerSet, o': RunnerSet)
    requires o'.(status := o.status) == o
    ensures HasUncontrolled(revs, o') == HasUncontrolled(revs, o) && Owned(revs, o') == Owned(revs, o)
  {
  }
}
