/** Whole reconcile passes of the RunnerSet controller (controllers/runnerset_controller.go:69-134): MakeHistory,
    findRunners, syncRunners, the pointer update, TruncateHistory and the deferred status write, over any run. */
module Reconcile {
  import opened Strings
  import opened Revisions
  import opened History
  import opened HistoryProperties
  import opened Truncation
  import opened Fleet
  import opened FleetProperties

  datatype World = World(revs: Store, runners: Runners, owner: RunnerSet)

  /** How the API server behaves during a pass; `truncates` revision deletes succeed, `commits` is the status write. */
  datatype Env = Env(history: Api, fleet: FleetApi, truncates: nat, commits: bool)

  /** The choices of a pass: the runner pass and the listing TruncateHistory gets. */
  datatype Trace = Trace(pass: Pass, listing: seq<ControllerRevision>)

  function LabelsOf(s: seq<Runner>): seq<Labels> {
    seq(|s|, i requires 0 <= i < |s| => s[i].labels)
  }

  /** The owner after findRunners has counted. */
  function Counted(o: RunnerSet, kept: seq<Runner>): RunnerSet {
    o.(status := o.status.(runners := |kept|, idle := Count(kept, IsIdle()), active := Count(kept, IsActive())))
  }

  /** The current revision moves once every runner found carries the revision. */
  function Moved(o: RunnerSet, order: seq<Runner>, rev: string): RunnerSet {
    if o.status.runners == Count(order, HasRevision(rev)) then o.(status := o.status.(current := rev)) else o
  }

  ghost predicate Reconciles(h: Hasher, w: World, w': World, env: Env, t: Trace) {
    && Keyed(w.revs)
    && var made := MakeHistory(h, w.revs, w.owner, env.history);
    if !made.outcome.Made? then
      w' == World(made.revs, w.runners, w.owner)
    else
      AfterHistory(w.owner, made.revs, made.owner, made.outcome.rev.name, w.runners, w', env, t)
  }

  ghost predicate AfterHistory(
    persisted: RunnerSet, revs: Store, o: RunnerSet, rev: string, before: Runners, w': World, env: Env, t: Trace)
  {
    var kept := RetainedOf(t.pass.list, o, rev, env.fleet);
    && t.pass.api == env.fleet
    && Passes(o, rev, before, w'.runners, t.pass)
    && var counted := Counted(o, kept);
    if t.pass.failed then
      && w'.revs == revs
      && w'.owner == (if env.commits then counted else persisted)
    else
      var moved := Moved(counted, t.pass.order, rev);
      && Lists(t.listing, Owned(revs, o))
      && w'.revs == Truncate(revs, moved, t.listing, LabelsOf(t.pass.order), env.truncates).revs
      && w'.owner == (if env.commits then moved else persisted)
  }

  /* ---- the current revision ---- */

  lemma {:induction false} CountFull(s: seq<Runner>, p: Runner -> bool)
    ensures Count(s, p) == |s| <==> forall r :: r in s ==> p(r)
  {
    if s != [] {
      var front, last := s[..|s| - 1], s[|s| - 1];
      assert s == front + [last];
      CountFull(front, p);
      CountBound(front, p);
    }
  }

  /** In a pass that gets that far, the pointer ends on the pass's revision if and only if it was there already or
      every runner found carries that revision's label. The sort in between does not disturb the count. */
  lemma CurrentMovesWhenAllUpdated(o: RunnerSet, kept: seq<Runner>, order: seq<Runner>, rev: string)
    requires ReorderedFor(kept, order, o.desired)
    ensures
      var moved := Moved(Counted(o, kept), order, rev);
      && (moved.status.current == rev <==>
            o.status.current == rev || forall r :: r in kept ==> LabelOf(r.labels) == rev)
      && (moved.status.current != rev ==> moved.status.current == o.status.current)
      && |kept| - Count(order, HasRevision(rev)) == |kept| - Count(kept, HasRevision(rev))
  {
    CountPermutation(order, kept, HasRevision(rev));
    CountFull(kept, HasRevision(rev));
  }

  /** The counts a written pass reports are exact: the runners the owner controls or can adopt and does not drop, those
      of them that are idle, and those that are active. */
  lemma CountsOfPass(h: Hasher, w: World, w': World, env: Env, t: Trace)
    requires KeyedRunners(w.runners) && Reconciles(h, w, w', env, t) && env.commits
    requires MakeHistory(h, w.revs, w.owner, env.history).outcome.Made?
    ensures
      var rev := MakeHistory(h, w.revs, w.owner, env.history).outcome.rev.name;
      var kept := set n | n in w.runners && w.owner.selector.Items <= w.runners[n].labels.Items
                          && Taken(w.runners[n], w.owner, env.fleet) && !Drops(w.runners[n], w.owner, rev);
      && w'.owner.status.runners == |kept|
      && w'.owner.status.idle == |set n | n in kept && w.runners[n].phase == Idle|
      && w'.owner.status.active == |set n | n in kept && w.runners[n].phase == Active|
  {
    CallKeepsOwner(h, w.revs, w.owner, env.history);
    var made := MakeHistory(h, w.revs, w.owner, env.history);
    StaysKeyed(h, State(w.revs, w.owner), Call(env.history));
    hide MakeHistory;
    var rev := made.outcome.rev.name;
    CountsAfterHistory(w.owner, made.revs, made.owner, rev, w.runners, w', env, t);
    assert forall r :: Taken(r, made.owner, env.fleet) == Taken(r, w.owner, env.fleet);
    assert forall r :: Drops(r, made.owner, rev) == Drops(r, w.owner, rev);
    hide AfterHistory, Taken, Drops;
    assert KeptNames(w.runners, made.owner, rev, env.fleet) == KeptNames(w.runners, w.owner, rev, env.fleet);
  }

  ghost function KeptNames(runners: Runners, o: RunnerSet, rev: string, api: FleetApi): set<string> {
    set n | n in runners && o.selector.Items <= runners[n].labels.Items
            && Taken(runners[n], o, api) && !Drops(runners[n], o, rev)
  }

  lemma CountsAfterHistory(
    persisted: RunnerSet, revs: Store, o: RunnerSet, rev: string, before: Runners, w': World, env: Env, t: Trace)
    requires KeyedRunners(before) && AfterHistory(persisted, revs, o, rev, before, w', env, t) && env.commits
    ensures var kept := KeptNames(before, o, rev, env.fleet);
      && w'.owner.status.runners == |kept|
      && w'.owner.status.idle == |set n | n in kept && before[n].phase == Idle|
      && w'.owner.status.active == |set n | n in kept && before[n].phase == Active|
  {
    var slice := RetainedOf(t.pass.list, o, rev, env.fleet);
    var kept := KeptNames(before, o, rev, env.fleet);
    RetainedNames(o, rev, before, t.pass);
    hide RetainedOf, Passes, Truncate, Lists, Owned, Count, Taken, Drops, HasRevision;
    assert NamesWhere(slice, Anyone()) == kept;
    PhaseNames(slice, before, kept, o, IsIdle(), Idle);
    PhaseNames(slice, before, kept, o, IsActive(), Active);
    hide NamesWhere, KeptNames;
    NamesCounted(slice, Anyone());
    NamesCounted(slice, IsIdle());
    NamesCounted(slice, IsActive());
    CountAll(slice, Anyone());
  }

  lemma PhaseNames(
    slice: seq<Runner>, before: Runners, kept: set<string>, o: RunnerSet, p: Runner -> bool, phase: Phase)
    requires NamesWhere(slice, Anyone()) == kept && forall r :: p(r) <==> r.phase == phase
    requires forall r :: r in slice ==> r.name in before && r == before[r.name].(controller := Some(o.uid))
    ensures kept <= before.Keys && NamesWhere(slice, p) == set n | n in kept && before[n].phase == phase
  {
    forall n ensures n in NamesWhere(slice, p) <==> n in kept && n in before && before[n].phase == phase {
      if n in kept { var r :| r in slice && r.name == n; }
    }
  }

  /* ---- no dangling references ---- */

  /** `n` names a stored revision of the owner's. */
  predicate Names(n: string, revs: Store, o: RunnerSet) {
    n in revs && Listed(revs[n], o)
  }

  predicate Labelled(r: Runner, revs: Store, o: RunnerSet) {
    HASH_LABEL in r.labels && Names(r.labels[HASH_LABEL], revs, o)
  }

  /** No revision outside the owner's list sits under a name the owner could derive. */
  ghost predicate NamesReserved(h: Hasher, revs: Store, o: RunnerSet) {
    forall n, raw, probe :: n in revs && n == Name(o.name, h(raw, probe)) ==> Listed(revs[n], o)
  }

  /** The owner's pointers and the revision labels of its runners, and of the orphans it would adopt, name stored
      revisions; only runners that can no longer be retained are exempt. */
  ghost predicate PointersSound(revs: Store, runners: Runners, o: RunnerSet) {
    PointersNamed(revs, o) && RunnersLabelled(revs, runners, o)
  }

  predicate PointersNamed(revs: Store, o: RunnerSet) {
    && (o.status.current == "" || Names(o.status.current, revs, o))
    && (o.status.next == "" || Names(o.status.next, revs, o))
  }

  ghost predicate RunnersLabelled(revs: Store, runners: Runners, o: RunnerSet) {
    forall n :: n in runners && Selected(runners[n], o) && Mine(runners[n], o) ==>
      Labelled(runners[n], revs, o) || OnItsWayOut(runners[n], o)
  }

  ghost predicate StoreSound(h: Hasher, revs: Store, o: RunnerSet) {
    && Keyed(revs) && "" !in revs && !HasUncontrolled(revs, o) && NamesReserved(h, revs, o) && SelectorFits(o)
  }

  ghost predicate Sound(h: Hasher, w: World) {
    && StoreSound(h, w.revs, w.owner) && KeyedRunners(w.runners) && PointersSound(w.revs, w.runners, w.owner)
  }

  /** A call of MakeHistory on a sound store never reaches a nil dereference, keeps the store sound and every name in
      it, and ends, when it succeeds, with both pointers naming stored revisions. */
  lemma HistoryKeepsNames(h: Hasher, revs: Store, o: RunnerSet, api: Api)
    requires StoreSound(h, revs, o) && (o.status.current == "" || Names(o.status.current, revs, o))
    ensures
      var res := MakeHistory(h, revs, o, api);
      && !res.outcome.NilCurrent? && !res.outcome.NilController?
      && StoreSound(h, res.revs, o) && res.owner.(status := o.status) == o
      && (forall n :: Names(n, revs, o) ==> Names(n, res.revs, o))
      && (res.outcome.Made? ==>
            && Names(res.outcome.rev.name, res.revs, o) && res.owner.status.next == res.outcome.rev.name
            && Names(res.owner.status.current, res.revs, o))
  {
    CallWrites(h, revs, o, api);
    WritesKeepSound(h, revs, o, api, MakeHistory(h, revs, o, api).revs);
    DecideFits(h, revs, o);
    var plan := Decide(h, revs, o);
    if Carry(revs, o, plan, api).Wrote? { PlanIsNamed(h, revs, o, plan, api); }
    hide Carry, Decide, PlanFits, WritesOne, StoreSound, Names;
  }

  lemma WritesKeepSound(h: Hasher, revs: Store, o: RunnerSet, api: Api, after: Store)
    requires StoreSound(h, revs, o)
    requires WritesOne(h, revs, o, after, api.now)
    ensures StoreSound(h, after, o)
    ensures forall n :: Names(n, revs, o) ==> Names(n, after, o)
  {
    if r, n :| Renumbers(revs, o, after, r, n) {
      WriteKeepsSound(h, revs, o, r.(number := n));
    } else if next :| Creates(h, revs, o, after, next, api.now) {
      NextListed(h, o, next.number, api.now);
      WriteKeepsSound(h, revs, o, next.(created := api.now));
    }
  }

  lemma PlanIsNamed(h: Hasher, revs: Store, o: RunnerSet, plan: Plan, api: Api)
    requires StoreSound(h, revs, o) && PlanFits(h, revs, o, plan) && Carry(revs, o, plan, api).Wrote?
    ensures var w := Carry(revs, o, plan, api).write; Names(w.rev.name, w.revs, o)
  {
    if plan.CreateNew? {
      CreateLoopStored(revs, plan.next, CollisionCount(o), api);
      NextListed(h, o, plan.next.number, api.now);
    }
  }

  lemma WriteKeepsSound(h: Hasher, revs: Store, o: RunnerSet, r: ControllerRevision)
    requires StoreSound(h, revs, o) && Listed(r, o) && r.name != ""
    ensures StoreSound(h, revs[r.name := r], o)
    ensures forall n :: Names(n, revs, o) ==> Names(n, revs[r.name := r], o)
  {
  }

  /** Where the runners of a pass stand: on their way out, or labelled like a retained runner, or with the new
      revision. */
  predicate Accounted(r: Runner, rev: string, kept: seq<Runner>, o: RunnerSet) {
    || OnItsWayOut(r, o)
    || (HASH_LABEL in r.labels && r.labels[HASH_LABEL] == rev)
    || exists k :: k in kept && k.labels == r.labels
  }

  /** Orphans are adopted, and the runners findRunners means to delete are deleted or marked. */
  ghost predicate DropsAccepted(o: RunnerSet, rev: string, runners: Runners, api: FleetApi) {
    forall n :: n in runners && Selected(runners[n], o) ==>
      && (runners[n].controller.None? ==> api.adopts(n))
      && (FateOf(runners[n], o, rev, api) in {Rolled, Completed} ==> api.deletes(n))
  }

  lemma FleetAccounts(o: RunnerSet, rev: string, before: Runners, after: Runners, p: Pass, n: string)
    requires KeyedRunners(before) && Passes(o, rev, before, after, p) && DropsAccepted(o, rev, before, p.api)
    requires n in after && Selected(after[n], o) && Mine(after[n], o)
    ensures Accounted(after[n], rev, RetainedOf(p.list, o, rev, p.api), o)
  {
    hide RetainedOf, ReorderedFor, Chosen, Found, Deleted, DropsAccepted;
    var found, kept := Found(before, o, rev, p.api), RetainedOf(p.list, o, rev, p.api);
    KeptInStore(p.list, before, o, rev, p.api);
    if n !in p.births {
      SyncRespects(o, rev, found, kept, after, p, n);
      FoundFate(o, rev, before, p.api, n);
      assert FateOf(before[n], o, rev, p.api) == Retained ==> Adopted(before[n], o) in kept;
    }
  }

  lemma FoundFate(o: RunnerSet, rev: string, before: Runners, api: FleetApi, n: string)
    requires KeyedRunners(before) && DropsAccepted(o, rev, before, api) && n in Found(before, o, rev, api)
    requires var r := Found(before, o, rev, api)[n]; Selected(r, o) && Mine(r, o)
    ensures n in before && Selected(before[n], o) && Mine(before[n], o)
    ensures FateOf(before[n], o, rev, api) == Retained || OnItsWayOut(Found(before, o, rev, api)[n], o)
    ensures Found(before, o, rev, api)[n].labels == before[n].labels
  {
    FoundFrom(o, rev, before, api, n);
    assert Selected(before[n], o);
    hide Selected, LabelOf, Found;
  }

  lemma FoundFrom(o: RunnerSet, rev: string, before: Runners, api: FleetApi, n: string)
    requires KeyedRunners(before) && n in Found(before, o, rev, api)
    ensures n in before && Found(before, o, rev, api)[n].labels == before[n].labels
    ensures Selected(before[n], o) ==> AfterFind(before[n], o, rev, api) == Some(Found(before, o, rev, api)[n])
  {
    hide FateOf, Matches;
  }

  /** A retained runner's label names a stored revision. */
  lemma RetainedLabelled(o: RunnerSet, rev: string, revs: Store, before: Runners, p: Pass, k: Runner)
    requires KeyedRunners(before) && ListsRunners(p.list, before, o) && RunnersLabelled(revs, before, o)
    requires Names(rev, revs, o) && rev != "" && k in RetainedOf(p.list, o, rev, p.api)
    ensures Labelled(k, revs, o)
  {
    hide RetainedOf, Found;
    KeptInStore(p.list, before, o, rev, p.api);
    var r := before[k.name];
    assert k == Adopted(r, o) by { KeptIsAdopted(p.list, before, o, rev, p.api, k); }
  }

  /** Truncating keeps whatever the pointers, the retained runners and the new ones refer to. */
  lemma TruncateKeepsNames(
    revs: Store, o: RunnerSet, rev: string, listing: seq<ControllerRevision>, order: seq<Runner>, succeeding: nat,
    n: string)
    requires Keyed(revs) && Lists(listing, Owned(revs, o)) && Names(n, revs, o) && n != ""
    requires || n == o.status.current || n == o.status.next
             || exists k :: k in order && HASH_LABEL in k.labels && k.labels[HASH_LABEL] == n
    ensures Names(n, Truncate(revs, o, listing, LabelsOf(order), succeeding).revs, o)
  {
    TruncateIsSafe(revs, o, listing, LabelsOf(order), succeeding);
    if k :| k in order && HASH_LABEL in k.labels && k.labels[HASH_LABEL] == n {
      var i :| 0 <= i < |order| && order[i] == k;
      assert LabelsOf(order)[i] == k.labels;
      assert n == LabelOf(k.labels);
      assert n in RunnerLabels(LabelsOf(order));
    }
  }

  /** Revisions this owner does not list may come, go and change, as long as none of them takes a name it could derive
      or is selected without a controller. */
  ghost predicate OthersWrite(h: Hasher, revs: Store, revs': Store, o: RunnerSet) {
    && Keyed(revs') && "" !in revs' && !HasUncontrolled(revs', o) && NamesReserved(h, revs', o)
    && (forall n :: Names(n, revs, o) <==> Names(n, revs', o))
    && (forall n :: Names(n, revs, o) ==> revs'[n] == revs[n])
  }

  /** Users edit the template, keeping it matched, the desired count, the history limit and the update strategy. */
  predicate Edited(o: RunnerSet, o': RunnerSet) {
    && SelectorFits(o')
    && o'.(template := o.template, desired := o.desired, limit := o.limit, rolling := o.rolling) == o
  }

  /** A runner that only the rolling update strategy sends on its way out. */
  predicate OutByStrategy(r: Runner, o: RunnerSet) {
    Selected(r, o) && Mine(r, o) && r.terminating && r.phase == Idle
  }

  /** Between passes: edits, runners that evolve, come and go, and other owners writing their revisions. New runners the
      owner would take have labels naming stored revisions; so have idle runners under deletion when rolling updates are
      switched off. */
  ghost predicate Interferes(h: Hasher, w: World, w': World) {
    && OthersWrite(h, w.revs, w'.revs, w.owner) && KeyedRunners(w'.runners) && Edited(w.owner, w'.owner)
    && (forall n :: n in w'.runners ==>
          || (n in w.runners && Evolves(w.runners[n], w'.runners[n]))
          || !Selected(w'.runners[n], w.owner) || !Mine(w'.runners[n], w.owner)
          || Labelled(w'.runners[n], w.revs, w.owner))
    && (w.owner.rolling && !w'.owner.rolling ==>
          forall n :: n in w'.runners && OutByStrategy(w'.runners[n], w.owner) ==>
            Labelled(w'.runners[n], w.revs, w.owner))
  }

  lemma InterferenceKeepsSound(h: Hasher, w: World, w': World)
    requires Sound(h, w) && Interferes(h, w, w')
    ensures Sound(h, w')
  {
    EditKeepsStore(h, w.revs, w'.revs, w.owner, w'.owner);
    hide StoreSound, OthersWrite, Edited, Selected, Mine, OnItsWayOut, Names, Evolves;
    forall n | n in w'.runners && Selected(w'.runners[n], w'.owner) && Mine(w'.runners[n], w'.owner)
      ensures Labelled(w'.runners[n], w'.revs, w'.owner) || OnItsWayOut(w'.runners[n], w'.owner)
    {
      EditedStaysOurs(w'.runners[n], w.owner, w'.owner);
      if n in w.runners && Evolves(w.runners[n], w'.runners[n]) {
        EvolvedStaysOurs(w.runners[n], w'.runners[n], w.owner);
      }
    }
  }

  lemma EditKeepsStore(h: Hasher, revs: Store, revs': Store, o: RunnerSet, o': RunnerSet)
    requires StoreSound(h, revs, o) && OthersWrite(h, revs, revs', o) && Edited(o, o')
    ensures StoreSound(h, revs', o') && (PointersNamed(revs, o) ==> PointersNamed(revs', o'))
    ensures forall n :: Names(n, revs', o') == Names(n, revs, o)
  {
    assert forall n :: Names(n, revs', o') == Names(n, revs', o);
  }

  lemma EditedStaysOurs(r: Runner, o: RunnerSet, o': RunnerSet)
    requires Edited(o, o') && Selected(r, o') && Mine(r, o')
    ensures Selected(r, o) && Mine(r, o)
    ensures OnItsWayOut(r, o) ==> OnItsWayOut(r, o') || (o.rolling && !o'.rolling && OutByStrategy(r, o))
  {
  }

  /** Switching rolling updates off keeps the labels of the runners sound exactly when no idle runner under deletion
      depends on the strategy. */
  lemma SwitchingOffExactly(revs: Store, runners: Runners, o: RunnerSet)
    requires o.rolling && RunnersLabelled(revs, runners, o)
    ensures RunnersLabelled(revs, runners, o.(rolling := false)) <==>
      forall n :: n in runners && OutByStrategy(runners[n], o) ==> Labelled(runners[n], revs, o)
  {
    var o' := o.(rolling := false);
    forall r: Runner
      ensures Selected(r, o') == Selected(r, o) && Mine(r, o') == Mine(r, o)
      ensures Labelled(r, revs, o') == Labelled(r, revs, o)
      ensures OnItsWayOut(r, o) <==> OnItsWayOut(r, o') || (r.terminating && r.phase == Idle)
      ensures OutByStrategy(r, o) ==> !OnItsWayOut(r, o')
    {
    }
    hide Selected, Mine, Labelled, OnItsWayOut;
    if RunnersLabelled(revs, runners, o') {
      forall n | n in runners && OutByStrategy(runners[n], o) ensures Labelled(runners[n], revs, o) {
        assert !OnItsWayOut(runners[n], o');
      }
    }
  }

  /** It can break them: an idle runner under deletion whose revision is gone would be retained again. */
  lemma SwitchingOffBreaksLabels()
    ensures
      var o := RunnerSet("s", "u", map[], Template("", map[]), 1, true, 0, Status("", "", Some(0), 0, 0, 0));
      var runners := map["r" := Runner("r", map[HASH_LABEL := "gone"], Some("u"), Idle, true, true)];
      RunnersLabelled(map[], runners, o) && !RunnersLabelled(map[], runners, o.(rolling := false))
  {
    var runners := map["r" := Runner("r", map[HASH_LABEL := "gone"], Some("u"), Idle, true, true)];
    assert "r" in runners && HASH_LABEL in runners["r"].labels;
  }

  lemma EvolvedStaysOurs(a: Runner, b: Runner, o: RunnerSet)
    requires Evolves(a, b) && Selected(b, o) && Mine(b, o)
    ensures Selected(a, o) && Mine(a, o) && (OnItsWayOut(a, o) ==> OnItsWayOut(b, o))
  {
  }

  /** Two RunnerSets that are different objects and can never derive the same revision name. */
  ghost predicate Apart(h: Hasher, a: RunnerSet, b: RunnerSet) {
    a.uid != b.uid && forall x, p, y, q :: Name(a.name, h(x, p)) != Name(b.name, h(y, q))
  }

  /** A whole pass of another RunnerSet on the shared store, with any API behaviour and even if both selectors match the
      same objects, is interference of this kind. */
  lemma OtherPassInterferes(h: Hasher, w: World, w': World, other: RunnerSet, other': RunnerSet, env: Env, t: Trace)
    requires Sound(h, w) && Apart(h, other, w.owner) && w'.owner == w.owner
    requires Reconciles(h, World(w.revs, w.runners, other), World(w'.revs, w'.runners, other'), env, t)
    ensures Interferes(h, w, w')
  {
    assert other.uid != w.owner.uid && SelectorFits(w.owner);
    OtherPassWrites(h, w, w', other, other', env, t);
    CallWrites(h, w.revs, other, env.history);
    hide MakeHistory, Apart, Names, Passes, Truncate, Owned, Lists, Evolves, WritesOne, OthersWrite, StoreSound;
    hide PointersSound, Mine, Selected, Labelled, SelectorFits;
    var made := MakeHistory(h, w.revs, other, env.history);
    if made.outcome.Made? {
      var rev := made.outcome.rev.name;
      PassKeepsKeys(made.owner, rev, w.runners, w'.runners, t.pass);
      forall n | n in w'.runners
        ensures (n in w.runners && Evolves(w.runners[n], w'.runners[n])) || !Mine(w'.runners[n], w.owner)
      {
        OtherPassEvolves(made.owner, rev, w.runners, w'.runners, t.pass, n);
        if w'.runners[n].controller == Some(other.uid) { NotMine(w'.runners[n], other, w.owner); }
      }
    } else {
      forall n | n in w'.runners ensures Evolves(w.runners[n], w'.runners[n]) { EvolvesToItself(w.runners[n]); }
    }
  }

  lemma EvolvesToItself(r: Runner)
    ensures Evolves(r, r)
  {
  }

  /** Of the store, that pass writes nothing the owner lists and takes none of its names. */
  lemma OtherPassWrites(h: Hasher, w: World, w': World, other: RunnerSet, other': RunnerSet, env: Env, t: Trace)
    requires StoreSound(h, w.revs, w.owner) && Apart(h, other, w.owner)
    requires Reconciles(h, World(w.revs, w.runners, other), World(w'.revs, w'.runners, other'), env, t)
    ensures OthersWrite(h, w.revs, w'.revs, w.owner)
  {
    assert other.uid != w.owner.uid;
    hide MakeHistory, NamesReserved, HasUncontrolled, Apart, Names, Passes, Truncate, Owned, Lists, WritesOne;
    CallWrites(h, w.revs, other, env.history);
    var made := MakeHistory(h, w.revs, other, env.history);
    OtherCallWrites(h, w.revs, made.revs, w.owner, other, env.history.now);
    if made.outcome.Made? {
      OtherTruncates(
        h, w.owner, made.revs, made.owner, made.outcome.rev.name, w.runners, w', other, other', env, t);
      OthersChain(h, w.revs, made.revs, w'.revs, w.owner);
    }
  }

  lemma NotMine(r: Runner, other: RunnerSet, o: RunnerSet)
    requires r.controller == Some(other.uid) && other.uid != o.uid
    ensures !Mine(r, o)
  {
  }

  lemma OthersChain(h: Hasher, a: Store, b: Store, c: Store, o: RunnerSet)
    requires OthersWrite(h, a, b, o) && OthersWrite(h, b, c, o)
    ensures OthersWrite(h, a, c, o)
  {
    hide Names, NamesReserved, HasUncontrolled;
  }

  lemma OtherCallWrites(h: Hasher, revs: Store, after: Store, o: RunnerSet, other: RunnerSet, now: int)
    requires StoreSound(h, revs, o) && Apart(h, other, o) && WritesOne(h, revs, other, after, now)
    ensures OthersWrite(h, revs, after, o)
  {
    if r, n :| Renumbers(revs, other, after, r, n) {
      assert r.controller == Some(other.uid) && revs[r.name] == r;
      OtherWrites(h, revs, o, other, r.(number := n));
    } else if next :| Creates(h, revs, other, after, next, now) {
      assert next.name == Name(other.name, h(other.template.raw, other.status.collision)) && |next.name| > 0;
      OtherWrites(h, revs, o, other, next.(created := now));
    }
  }

  lemma OtherWrites(h: Hasher, revs: Store, o: RunnerSet, other: RunnerSet, r: ControllerRevision)
    requires StoreSound(h, revs, o) && r.controller == Some(other.uid) && other.uid != o.uid && r.name != ""
    requires if r.name in revs then revs[r.name].controller == Some(other.uid)
             else forall x, p :: r.name != Name(o.name, h(x, p))
    ensures OthersWrite(h, revs, revs[r.name := r], o)
  {
    hide Matches;
  }

  lemma OtherTruncates(
    h: Hasher, o: RunnerSet, revs: Store, acting: RunnerSet, rev: string, before: Runners, w': World,
    other: RunnerSet, other': RunnerSet, env: Env, t: Trace)
    requires AfterHistory(other, revs, acting, rev, before, World(w'.revs, w'.runners, other'), env, t)
    requires Keyed(revs) && "" !in revs && !HasUncontrolled(revs, o) && NamesReserved(h, revs, o) && acting.uid != o.uid
    ensures OthersWrite(h, revs, w'.revs, o)
  {
    hide Passes, Truncate, Lists, Owned;
    if !t.pass.failed {
      var moved := Moved(Counted(acting, RetainedOf(t.pass.list, acting, rev, env.fleet)), t.pass.order, rev);
      assert Owned(revs, moved) == Owned(revs, acting) by { SameOwned(revs, acting, moved); }
      TruncateIsSafe(revs, moved, t.listing, LabelsOf(t.pass.order), env.truncates);
    }
  }

  lemma OtherPassEvolves(o: RunnerSet, rev: string, before: Runners, after: Runners, p: Pass, n: string)
    requires KeyedRunners(before) && Passes(o, rev, before, after, p) && n in after
    ensures (n in before && Evolves(before[n], after[n])) || after[n].controller == Some(o.uid)
  {
    if n in before {
      PassRespectsOwners(o, rev, before, after, p, n);
      hide Passes;
    } else {
      hide RetainedOf, FateOf, ReorderedFor, Chosen, ListsRunners;
    }
  }

  lemma StatusIrrelevant(h: Hasher, revs: Store, runners: Runners, o: RunnerSet, o': RunnerSet)
    requires o'.(status := o.status) == o
    ensures StoreSound(h, revs, o') == StoreSound(h, revs, o)
    ensures RunnersLabelled(revs, runners, o') == RunnersLabelled(revs, runners, o)
    ensures Owned(revs, o') == Owned(revs, o)
    ensures forall n :: Names(n, revs, o') == Names(n, revs, o)
  {
  }

  lemma RunnersStayLabelled(
    o: RunnerSet, rev: string, revs: Store, revs': Store, before: Runners, after: Runners, p: Pass)
    requires KeyedRunners(before) && Passes(o, rev, before, after, p) && DropsAccepted(o, rev, before, p.api)
    requires RunnersLabelled(revs, before, o) && Names(rev, revs, o) && rev != ""
    requires Names(rev, revs', o)
    requires forall k :: k in p.order && Labelled(k, revs, o) ==> Labelled(k, revs', o)
    ensures RunnersLabelled(revs', after, o)
  {
    var kept := RetainedOf(p.list, o, rev, p.api);
    hide RetainedOf, Found, Deleted, WithBirths, Chosen, ReorderedFor, ListsRunners, FateOf;
    OrderHoldsKept(kept, p.order, o.desired);
    forall n | n in after && Selected(after[n], o) && Mine(after[n], o)
      ensures Labelled(after[n], revs', o) || OnItsWayOut(after[n], o)
    {
      FleetAccounts(o, rev, before, after, p, n);
      if k :| k in kept && k.labels == after[n].labels {
        RetainedLabelled(o, rev, revs, before, p, k);
        assert k in p.order;
      }
    }
  }

  lemma AfterHistoryKeepsSound(
    h: Hasher, persisted: RunnerSet, revs: Store, o: RunnerSet, rev: string,
    before: Runners, w': World, env: Env, t: Trace)
    requires AfterHistory(persisted, revs, o, rev, before, w', env, t)
    requires StoreSound(h, revs, o) && KeyedRunners(before) && DropsAccepted(o, rev, before, env.fleet) && env.commits
    requires Names(rev, revs, o) && rev != "" && o.status.next == rev && Names(o.status.current, revs, o)
    requires RunnersLabelled(revs, before, o)
    ensures Sound(h, w')
  {
    hide RetainedOf, Passes, Truncate, Lists, Owned, StoreSound, RunnersLabelled, Names, Count, HasRevision;
    var kept := RetainedOf(t.pass.list, o, rev, env.fleet);
    var counted := Counted(o, kept);
    PassKeepsKeys(o, rev, before, w'.runners, t.pass);
    if t.pass.failed {
      RunnersStayLabelled(o, rev, revs, revs, before, w'.runners, t.pass);
      StatusIrrelevant(h, revs, w'.runners, o, counted);
    } else {
      var moved := Moved(counted, t.pass.order, rev);
      StatusIrrelevant(h, revs, w'.runners, o, moved);
      StatusIrrelevant(h, w'.revs, w'.runners, o, moved);
      TruncatedStoreSound(h, revs, moved, t.listing, LabelsOf(t.pass.order), env.truncates);
      AfterTruncation(h, revs, moved, o, rev, before, w', env, t);
    }
  }

  lemma TruncatedStoreSound(
    h: Hasher, revs: Store, o: RunnerSet, listing: seq<ControllerRevision>, labels: seq<Labels>, succeeding: nat)
    requires StoreSound(h, revs, o) && Lists(listing, Owned(revs, o))
    ensures StoreSound(h, Truncate(revs, o, listing, labels, succeeding).revs, o)
  {
    TruncateIsSafe(revs, o, listing, labels, succeeding);
  }

  lemma AfterTruncation(
    h: Hasher, revs: Store, moved: RunnerSet, o: RunnerSet, rev: string, before: Runners, w': World, env: Env, t: Trace)
    requires StoreSound(h, revs, moved) && KeyedRunners(before) && DropsAccepted(o, rev, before, t.pass.api)
    requires moved.(status := o.status) == o && moved.status.next == rev && rev != ""
    requires Names(rev, revs, moved) && Names(moved.status.current, revs, moved)
    requires Passes(o, rev, before, w'.runners, t.pass) && RunnersLabelled(revs, before, o)
    requires Lists(t.listing, Owned(revs, moved))
    requires w'.revs == Truncate(revs, moved, t.listing, LabelsOf(t.pass.order), env.truncates).revs
    ensures PointersSound(w'.revs, w'.runners, moved)
  {
    hide Truncate, Passes, Owned, Lists, NamesReserved, HasUncontrolled, RunnersLabelled;
    var listing, order, n := t.listing, t.pass.order, env.truncates;
    TruncateKeepsNames(revs, moved, rev, listing, order, n, rev);
    TruncateKeepsNames(revs, moved, rev, listing, order, n, moved.status.current);
    forall k | k in order && Labelled(k, revs, o) ensures Labelled(k, w'.revs, o) {
      TruncateKeepsNames(revs, moved, rev, listing, order, n, k.labels[HASH_LABEL]);
    }
    RunnersStayLabelled(o, rev, revs, w'.revs, before, w'.runners, t.pass);
    StatusIrrelevant(h, w'.revs, w'.runners, o, moved);
  }

  /** In this pass, if it gets to the runners, orphans are adopted and the runners to drop are dropped. */
  ghost predicate PassDrops(h: Hasher, w: World, env: Env)
    requires Keyed(w.revs)
  {
    var made := MakeHistory(h, w.revs, w.owner, env.history);
    made.outcome.Made? ==> DropsAccepted(made.owner, made.outcome.rev.name, w.runners, env.fleet)
  }

  /** A whole pass in which orphans are adopted, the runners to drop are dropped and the status is written keeps the
      world sound, wherever else the API fails: history rejected or colliding, creates or scale-down deletes refused,
      revision deletes cut short. */
  lemma PassKeepsSound(h: Hasher, w: World, w': World, env: Env, t: Trace)
    requires Sound(h, w) && Reconciles(h, w, w', env, t) && PassDrops(h, w, env) && env.commits
    ensures Sound(h, w')
  {
    HistoryKeepsNames(h, w.revs, w.owner, env.history);
    hide MakeHistory, StoreSound, RunnersLabelled, Names, AfterHistory;
    var made := MakeHistory(h, w.revs, w.owner, env.history);
    LabelsSurvive(w.revs, made.revs, w.runners, w.owner);
    StatusIrrelevant(h, made.revs, w.runners, w.owner, made.owner);
    if made.outcome.Made? {
      AfterHistoryKeepsSound(h, w.owner, made.revs, made.owner, made.outcome.rev.name, w.runners, w', env, t);
    }
  }

  lemma LabelsSurvive(revs: Store, revs': Store, runners: Runners, o: RunnerSet)
    requires RunnersLabelled(revs, runners, o) && forall n :: Names(n, revs, o) ==> Names(n, revs', o)
    ensures RunnersLabelled(revs', runners, o)
  {
  }

  /** A pass of this RunnerSet, a pass of another one, or anything else that interferes. */
  datatype Step =
    | ByPass(env: Env, trace: Trace)
    | ByOther(other: RunnerSet, other': RunnerSet, env: Env, trace: Trace)
    | ByEnvironment

  ghost predicate WorldStep(h: Hasher, step: Step, w: World, w': World) {
    match step
    case ByPass(env, t) => Reconciles(h, w, w', env, t) && PassDrops(h, w, env) && env.commits
    case ByOther(o, o', env, t) =>
      && Apart(h, o, w.owner) && w'.owner == w.owner
      && Reconciles(h, World(w.revs, w.runners, o), World(w'.revs, w'.runners, o'), env, t)
    case ByEnvironment => Interferes(h, w, w')
  }

  /** No reference ever dangles on any run of passes, of other RunnerSets' passes and of interference, so no call of
      MakeHistory on the way dereferences nil. */
  lemma {:induction false} NothingDanglesOnRuns(h: Hasher, worlds: seq<World>, steps: seq<Step>, api: Api)
    requires |worlds| == |steps| + 1 && Sound(h, worlds[0])
    requires forall i :: 0 <= i < |steps| ==> WorldStep(h, steps[i], worlds[i], worlds[i + 1])
    ensures var end := worlds[|steps|];
      && Sound(h, end)
      && var out := MakeHistory(h, end.revs, end.owner, api).outcome; !out.NilCurrent? && !out.NilController?
  {
    hide WorldStep;
    if steps == [] {
      SoundNeverCrashes(h, worlds[0], api);
    } else {
      hide Sound;
      StepKeepsSound(h, steps[0], worlds[0], worlds[1]);
      NothingDanglesOnRuns(h, worlds[1..], steps[1..], api);
      assert worlds[1..][|steps| - 1] == worlds[|steps|];
    }
  }

  lemma StepKeepsSound(h: Hasher, step: Step, w: World, w': World)
    requires Sound(h, w) && WorldStep(h, step, w, w')
    ensures Sound(h, w')
  {
    hide Sound, Interferes, Reconciles, Apart;
    match step {
      case ByPass(env, t) => PassKeepsSound(h, w, w', env, t);
      case ByOther(o, o', env, t) =>
        OtherPassInterferes(h, w, w', o, o', env, t);
        InterferenceKeepsSound(h, w, w');
      case ByEnvironment => InterferenceKeepsSound(h, w, w');
    }
  }

  lemma SoundNeverCrashes(h: Hasher, w: World, api: Api)
    requires StoreSound(h, w.revs, w.owner) && PointersNamed(w.revs, w.owner)
    ensures var out := MakeHistory(h, w.revs, w.owner, api).outcome; !out.NilCurrent? && !out.NilController?
  {
    HistoryKeepsNames(h, w.revs, w.owner, api);
  }

  /* ---- where the pointers stand after a pass ---- */

  /** The pass gets to its end, and every runner it kept carries the revision. */
  predicate MovesCurrent(kept: seq<Runner>, rev: string, t: Trace) {
    !t.pass.failed && forall r :: r in kept ==> LabelOf(r.labels) == rev
  }

  /** A pass leaves the current revision where it was or moves it, and truncates nothing the pointers then name. */
  lemma PassPointers(
    persisted: RunnerSet, revs: Store, o: RunnerSet, rev: string, before: Runners, w': World, env: Env, t: Trace)
    requires Keyed(revs) && AfterHistory(persisted, revs, o, rev, before, w', env, t)
    ensures
      var current := if MovesCurrent(RetainedOf(t.pass.list, o, rev, env.fleet), rev, t) then rev else o.status.current;
      && Keyed(w'.revs) && w'.revs.Keys <= revs.Keys && (forall n :: n in w'.revs ==> w'.revs[n] == revs[n])
      && (forall n :: n in revs && (!Listed(revs[n], o) || (n != "" && n in {current, o.status.next})) ==> n in w'.revs)
      && (env.commits ==>
            && w'.owner.(status := o.status) == o
            && w'.owner.status.current == current && w'.owner.status.next == o.status.next
            && w'.owner.status.collision == o.status.collision)
      && (!env.commits ==> w'.owner == persisted)
  {
    hide RetainedOf, Truncate, Lists, Owned, Count, HasRevision;
    var kept := RetainedOf(t.pass.list, o, rev, env.fleet);
    var counted := Counted(o, kept);
    CurrentMovesWhenAllUpdated(o, kept, t.pass.order, rev);
    hide Passes;
    if !t.pass.failed {
      var moved := Moved(counted, t.pass.order, rev);
      SameOwned(revs, o, moved);
      TruncateIsSafe(revs, moved, t.listing, LabelsOf(t.pass.order), env.truncates);
    }
  }

  /** For the pointers alone a run may do more: no runner matters, any call of a pass may be refused but its status
      write, and users edit the update strategy freely. */
  ghost predicate PointerStep(h: Hasher, step: Step, w: World, w': World) {
    match step
    case ByPass(env, t) => Reconciles(h, w, w', env, t) && env.commits
    case ByOther(o, o', env, t) =>
      && Apart(h, o, w.owner) && w'.owner == w.owner
      && Reconciles(h, World(w.revs, w.runners, o), World(w'.revs, w'.runners, o'), env, t)
    case ByEnvironment => OthersWrite(h, w.revs, w'.revs, w.owner) && Edited(w.owner, w'.owner)
  }

  /** On any such run both pointers name stored revisions, so no call of MakeHistory on the way dereferences nil. */
  lemma {:induction false} PointersNeverDangle(h: Hasher, worlds: seq<World>, steps: seq<Step>, api: Api)
    requires |worlds| == |steps| + 1
    requires StoreSound(h, worlds[0].revs, worlds[0].owner) && PointersNamed(worlds[0].revs, worlds[0].owner)
    requires forall i :: 0 <= i < |steps| ==> PointerStep(h, steps[i], worlds[i], worlds[i + 1])
    ensures var end := worlds[|steps|];
      && StoreSound(h, end.revs, end.owner) && PointersNamed(end.revs, end.owner)
      && var out := MakeHistory(h, end.revs, end.owner, api).outcome; !out.NilCurrent? && !out.NilController?
  {
    hide PointerStep, PointersNamed;
    if steps == [] {
      SoundNeverCrashes(h, worlds[0], api);
    } else {
      hide StoreSound;
      PointerStepKeeps(h, steps[0], worlds[0], worlds[1]);
      PointersNeverDangle(h, worlds[1..], steps[1..], api);
      assert worlds[1..][|steps| - 1] == worlds[|steps|];
    }
  }

  lemma PointerStepKeeps(h: Hasher, step: Step, w: World, w': World)
    requires StoreSound(h, w.revs, w.owner) && PointersNamed(w.revs, w.owner) && PointerStep(h, step, w, w')
    ensures StoreSound(h, w'.revs, w'.owner) && PointersNamed(w'.revs, w'.owner)
  {
    hide StoreSound, OthersWrite, Edited, Reconciles, Apart, PointersNamed;
    match step {
      case ByPass(env, t) => PassKeepsPointers(h, w, w', env, t);
      case ByOther(o, o', env, t) =>
        OtherPassWrites(h, w, w', o, o', env, t);
        UneditedFits(h, w.revs, w.owner);
        EditKeepsStore(h, w.revs, w'.revs, w.owner, w.owner);
      case ByEnvironment => EditKeepsStore(h, w.revs, w'.revs, w.owner, w'.owner);
    }
  }

  lemma UneditedFits(h: Hasher, revs: Store, o: RunnerSet)
    requires StoreSound(h, revs, o)
    ensures Edited(o, o)
  {
  }

  /** A pass whose status is written keeps both pointers on stored revisions, whatever else is refused. */
  lemma PassKeepsPointers(h: Hasher, w: World, w': World, env: Env, t: Trace)
    requires StoreSound(h, w.revs, w.owner) && PointersNamed(w.revs, w.owner)
    requires Reconciles(h, w, w', env, t) && env.commits
    ensures StoreSound(h, w'.revs, w'.owner) && PointersNamed(w'.revs, w'.owner)
  {
    HistoryKeepsNames(h, w.revs, w.owner, env.history);
    var made := MakeHistory(h, w.revs, w.owner, env.history);
    hide MakeHistory;
    if made.outcome.Made? {
      var rev := made.outcome.rev.name;
      PassPointers(w.owner, made.revs, made.owner, rev, w.runners, w', env, t);
      hide AfterHistory, Reconciles, MovesCurrent, RetainedOf;
      FewerStaySound(h, made.revs, w'.revs, w.owner, w'.owner);
    }
  }

  lemma FewerStaySound(h: Hasher, revs: Store, revs': Store, o: RunnerSet, o': RunnerSet)
    requires StoreSound(h, revs, o) && o'.(status := o.status) == o && Keyed(revs')
    requires revs'.Keys <= revs.Keys && forall n :: n in revs' ==> revs'[n] == revs[n]
    ensures StoreSound(h, revs', o') && forall n :: n in revs' && Names(n, revs, o) ==> Names(n, revs', o')
  {
  }

  /** The call settles on a revision that ListRevision does not return: a new one whose labels do not match, or a stored
      one found under the derived name. */
  ghost predicate LandsUnlisted(h: Hasher, revs: Store, o: RunnerSet)
    requires Keyed(revs)
  {
    var next := NextRevision(h, o, 0);
    Decide(h, revs, o).CreateNew? && !Listed(if next.name in revs then revs[next.name] else next, o)
  }

  lemma MadeLanding(h: Hasher, revs: Store, o: RunnerSet, api: Api)
    requires Keyed(revs) && MakeHistory(h, revs, o, api).outcome.Made?
    ensures
      var res := MakeHistory(h, revs, o, api);
      var name := res.outcome.rev.name;
      && Keyed(res.revs) && name in res.revs
      && (LandsUnlisted(h, revs, o) <==> !Listed(res.revs[name], o))
      && (LandsUnlisted(h, revs, o) ==>
            name == NextRevision(h, o, 0).name && name != "" && res.revs[name].raw == o.template.raw)
      && (forall n :: Names(n, revs, o) ==> Names(n, res.revs, o))
  {
    MadeIsCarried(h, revs, o, api);
    DecideFits(h, revs, o);
    PlanLands(h, revs, o, Decide(h, revs, o), api);
    hide MakeHistory, Decide, PlanFits, Carry, NextRevision;
  }

  lemma PlanLands(h: Hasher, revs: Store, o: RunnerSet, plan: Plan, api: Api)
    requires Keyed(revs) && PlanFits(h, revs, o, plan) && Carry(revs, o, plan, api).Wrote?
    ensures
      var w, next := Carry(revs, o, plan, api).write, NextRevision(h, o, 0);
      var name := w.rev.name;
      var unlisted := plan.CreateNew? && !Listed(if next.name in revs then revs[next.name] else next, o);
      && Keyed(w.revs) && name in w.revs && (unlisted <==> !Listed(w.revs[name], o))
      && (unlisted ==> name == next.name && name != "" && w.revs[name].raw == o.template.raw)
      && (forall n :: Names(n, revs, o) ==> Names(n, w.revs, o))
  {
    if plan.CreateNew? {
      CreateLoopStored(revs, plan.next, CollisionCount(o), api);
      assert plan.next.labels == NextRevision(h, o, 0).labels && |plan.next.name| > 0;
    }
  }

  lemma MadePointers(h: Hasher, revs: Store, o: RunnerSet, api: Api)
    requires Keyed(revs) && MakeHistory(h, revs, o, api).outcome.Made?
    ensures var res := MakeHistory(h, revs, o, api);
      && res.owner.(status := o.status) == o && res.owner.status.next == res.outcome.rev.name
      && res.owner.status.current == (if o.status.current == "" then res.outcome.rev.name else o.status.current)
      && (o.status.collision.Some? ==> res.owner.status.collision == o.status.collision)
  {
    MadeIsCarried(h, revs, o, api);
    CallWrites(h, revs, o, api);
    hide MakeHistory, Decide, Carry, WritesOne;
  }

  /** From any state whose current revision is listed, the pass after a committed one dereferences nil exactly when the
      call landed on an unlisted revision and the current pointer moved there, be it because the owner was fresh or
      because every runner kept carries that label; unless it is stuck on a clashing name, which needs a first call
      without a stored count. An edit of the template that no longer matches the selector is one way there. */
  lemma UnlistedCurrentFails(h: Hasher, w: World, w': World, env: Env, t: Trace, again: Api)
    requires Keyed(w.revs) && (w.owner.status.current == "" || Names(w.owner.status.current, w.revs, w.owner))
    requires Reconciles(h, w, w', env, t) && env.commits && AllAccepted(again)
    requires MakeHistory(h, w.revs, w.owner, env.history).outcome.Made?
    ensures Keyed(w'.revs)
    ensures
      var made := MakeHistory(h, w.revs, w.owner, env.history);
      var rev := made.outcome.rev.name;
      var stranded := LandsUnlisted(h, w.revs, w.owner) &&
        (w.owner.status.current == "" || MovesCurrent(RetainedOf(t.pass.list, made.owner, rev, env.fleet), rev, t));
      var out := MakeHistory(h, w'.revs, w'.owner, again).outcome;
      && (out.NilCurrent? <==> stranded && !Stuck(h, w'.revs, w'.owner))
      && (stranded && w.owner.status.collision.Some? ==> !Stuck(h, w'.revs, w'.owner))
  {
    MadeLanding(h, w.revs, w.owner, env.history);
    MadePointers(h, w.revs, w.owner, env.history);
    LeavesControlled(h, w.revs, w.owner, env.history);
    var next := NextRevision(h, w.owner, 0);
    hide MakeHistory, LandsUnlisted, RetainedOf, MovesCurrent;
    var made := MakeHistory(h, w.revs, w.owner, env.history);
    var rev := made.outcome.rev.name;
    PassPointers(w.owner, made.revs, made.owner, rev, w.runners, w', env, t);
    StatusIrrelevant(h, made.revs, w.runners, w.owner, made.owner);
    StatusIrrelevant(h, w'.revs, w.runners, w.owner, w'.owner);
    FewerUncontrolled(made.revs, w'.revs, made.owner, w'.owner);
    FailsExactly(h, w'.revs, w'.owner, again);
    if w.owner.status.collision.Some? { SameNext(h, w.owner, w'.owner); }
    hide AfterHistory, HasUncontrolled, Decide, NextRevision, PlanFits;
  }

  /** A sound world whose template is then edited to one that does not match the selector: after the next pass
      MakeHistory dereferences nil exactly when no listed revision had the new template's data and every runner kept
      carries the new label (or no pointer was set yet). Otherwise it goes on. */
  lemma MismatchingEditFails(
    h: Hasher, c: int, w: World, edited: RunnerSet, w': World, env: Env, t: Trace, again: Api)
    requires Sound(h, w) && NamedByData(h, c, State(w.revs, w.owner))
    requires edited == w.owner.(template := edited.template) && !Matches(edited.selector, edited.template.labels)
    requires Reconciles(h, World(w.revs, w.runners, edited), w', env, t) && env.commits && AllAccepted(again)
    requires MakeHistory(h, w.revs, edited, env.history).outcome.Made?
    ensures Keyed(w'.revs)
    ensures
      var made := MakeHistory(h, w.revs, edited, env.history);
      var rev := made.outcome.rev.name;
      MakeHistory(h, w'.revs, w'.owner, again).outcome.NilCurrent? <==>
        && (forall x :: x in Owned(w.revs, w.owner) ==> x.raw != edited.template.raw)
        && (edited.status.current == "" || MovesCurrent(RetainedOf(t.pass.list, made.owner, rev, env.fleet), rev, t))
  {
    MismatchLands(h, c, w.revs, w.owner, edited, env.history);
    assert forall n :: Names(n, w.revs, edited) == Names(n, w.revs, w.owner);
    hide MakeHistory, LandsUnlisted, RetainedOf, MovesCurrent, Owned, Reconciles;
    UnlistedCurrentFails(h, World(w.revs, w.runners, edited), w', env, t, again);
  }

  /** The pass over a RunnerSet that has no runners and wants none. */
  ghost function IdlePass(revs: Store, o: RunnerSet, rev: string, env: Env): (World, Trace)
    requires Keyed(revs)
  {
    var t := Trace(Pass([], [], {}, env.fleet, false), Ascending(Owned(revs, o)));
    var moved := Moved(Counted(o, []), [], rev);
    (World(Truncate(revs, moved, t.listing, LabelsOf([]), env.truncates).revs, map[], moved), t)
  }

  lemma IdlePassPasses(revs: Store, o: RunnerSet, rev: string, persisted: RunnerSet, env: Env)
    requires Keyed(revs) && o.desired <= 0 && env.commits
    ensures var (w', t) := IdlePass(revs, o, rev, env);
      AfterHistory(persisted, revs, o, rev, map[], w', env, t)
  {
    assert RunnerNames([]) == {};
    assert RetainedOf([], o, rev, env.fleet) == [];
    hide Truncate, Owned, Moved;
  }

  /** So it does happen to an updated RunnerSet: one without runners that wants none is stranded by the first pass after
      any edit to data not listed yet under labels that do not match. */
  lemma MismatchingEditStrands(h: Hasher, c: int, w: World, edited: RunnerSet, env: Env, again: Api)
    requires Sound(h, w) && NamedByData(h, c, State(w.revs, w.owner))
    requires edited == w.owner.(template := edited.template) && !Matches(edited.selector, edited.template.labels)
    requires MakeHistory(h, w.revs, edited, env.history).outcome.Made?
    requires w.runners == map[] && edited.desired <= 0 && env.commits && AllAccepted(again)
    requires forall x :: x in Owned(w.revs, w.owner) ==> x.raw != edited.template.raw
    ensures
      var made := MakeHistory(h, w.revs, edited, env.history);
      && Keyed(made.revs)
      && var (w', t) := IdlePass(made.revs, made.owner, made.outcome.rev.name, env);
      && Reconciles(h, World(w.revs, w.runners, edited), w', env, t)
      && Keyed(w'.revs) && MakeHistory(h, w'.revs, w'.owner, again).outcome.NilCurrent?
  {
    MadeLanding(h, w.revs, edited, env.history);
    MadePointers(h, w.revs, edited, env.history);
    hide MakeHistory, IdlePass, AfterHistory, Sound, NamedByData, LandsUnlisted, Owned;
    var made := MakeHistory(h, w.revs, edited, env.history);
    var rev := made.outcome.rev.name;
    var (w', t) := IdlePass(made.revs, made.owner, rev, env);
    IdlePassPasses(made.revs, made.owner, rev, edited, env);
    IdlePassKeepsNothing(made.revs, made.owner, rev, env);
    MismatchingEditFails(h, c, w, edited, w', env, t, again);
  }

  lemma IdlePassKeepsNothing(revs: Store, o: RunnerSet, rev: string, env: Env)
    requires Keyed(revs)
    ensures var t := IdlePass(revs, o, rev, env).1;
      MovesCurrent(RetainedOf(t.pass.list, o, rev, env.fleet), rev, t)
  {
    assert RetainedOf([], o, rev, env.fleet) == [];
    hide Truncate, Owned;
  }

  lemma MismatchLands(h: Hasher, c: int, revs: Store, o: RunnerSet, edited: RunnerSet, api: Api)
    requires StoreSound(h, revs, o) && NamedByData(h, c, State(revs, o))
    requires edited == o.(template := edited.template) && !Matches(edited.selector, edited.template.labels)
    requires MakeHistory(h, revs, edited, api).outcome.Made?
    ensures LandsUnlisted(h, revs, edited) <==> forall x :: x in Owned(revs, o) ==> x.raw != edited.template.raw
  {
    SameOwned(revs, o, edited);
    if x :| x in Owned(revs, edited) && x.raw == edited.template.raw {
      EditedStaysNamed(h, c, revs, o, edited);
      hide NamedByData, StoreSound, Decide, Owned;
      RevertDecides(h, c, State(revs, edited), x);
    } else {
      hide NamedByData;
      MadeIsCarried(h, revs, edited, api);
      DecideFits(h, revs, edited);
      var plan := Decide(h, revs, edited);
      hide MakeHistory, Decide;
      assert plan.CreateNew?;
      CreateLoopStored(revs, plan.next, CollisionCount(edited), api);
      hide Owned, PlanFits, StoreSound;
      UnmatchedIsUnlisted(h, revs, o, edited, plan.next);
    }
  }

  lemma EditedStaysNamed(h: Hasher, c: int, revs: Store, o: RunnerSet, edited: RunnerSet)
    requires Keyed(revs) && NamedByData(h, c, State(revs, o)) && edited == o.(template := edited.template)
    ensures NamedByData(h, c, State(revs, edited))
  {
    DoKeepsNames(h, c, State(revs, o), Edit(edited.template));
  }

  lemma UnmatchedIsUnlisted(h: Hasher, revs: Store, o: RunnerSet, edited: RunnerSet, next: ControllerRevision)
    requires StoreSound(h, revs, o) && !Clashes(revs, next) && next == NextRevision(h, edited, next.number)
    requires edited == o.(template := edited.template) && !Matches(edited.selector, edited.template.labels)
    requires forall x :: x in Owned(revs, o) ==> x.raw != edited.template.raw
    ensures next.name == NextRevision(h, edited, 0).name && next.name !in revs
    ensures !Listed(NextRevision(h, edited, 0), edited)
  {
    assert next.name == Name(o.name, h(edited.template.raw, edited.status.collision));
    assert forall n :: n in revs && Listed(revs[n], o) ==> revs[n] in Owned(revs, o);
    var k :| k in edited.selector && !(k in edited.template.labels && edited.template.labels[k] == edited.selector[k]);
    assert k != HASH_LABEL;
  }

  lemma FewerUncontrolled(revs: Store, revs': Store, o: RunnerSet, o': RunnerSet)
    requires !HasUncontrolled(revs, o) && o'.selector == o.selector
    requires revs'.Keys <= revs.Keys && forall n :: n in revs' ==> revs'[n] == revs[n]
    ensures !HasUncontrolled(revs', o')
  {
  }

  /* ---- convergence ---- */

  /** What one pass needs to settle the fleet, from any store and any runners: labels that match, fleet calls and the
      status write accepted, and deletes that take effect at once. */
  ghost predicate CalmFleet(w: World, env: Env) {
    && SelectorFits(w.owner) && KeyedRunners(w.runners) && w.owner.desired >= 0 && NoFinalizers(w.runners)
    && Cooperative(env.fleet) && env.commits
  }

  /** With a sound store, named pointers and history calls accepted, the history may settle too. */
  ghost predicate Calm(h: Hasher, w: World, env: Env) {
    && CalmFleet(w, env) && StoreSound(h, w.revs, w.owner) && PointersNamed(w.revs, w.owner) && AllAccepted(env.history)
  }

  lemma OwnName(h: Hasher, c: int, revs: Store, o: RunnerSet)
    requires StoreSound(h, revs, o) && NamedByData(h, c, State(revs, o))
    ensures NameIsOwn(h, revs, o)
  {
    var next := NextRevision(h, o, 0);
    if next.name in revs {
      assert next.name == Name(o.name, h(o.template.raw, o.status.collision));
      assert Controls(State(revs, o), next.name);
      NameInjective(o.name, h(revs[next.name].raw, Some(c)), h(o.template.raw, Some(c)));
      NameInjective(o.name, h(revs[next.name].raw, None), h(o.template.raw, Some(c)));
    }
  }

  lemma MadeSettles(h: Hasher, revs: Store, o: RunnerSet, api: Api)
    requires Keyed(revs) && AllAccepted(api) && SelectorFits(o) && NameIsOwn(h, revs, o)
    requires MakeHistory(h, revs, o, api).outcome.Made?
    ensures var res := MakeHistory(h, revs, o, api);
      && Settles(revs, o, Write(res.outcome.rev, res.revs), false) && res.owner.status.collision.Some?
  {
    MadeRevision(h, revs, o, api);
    hide MakeHistory, Settles, NameIsOwn, SelectorFits;
  }

  /** The revision of the call will not be taken for another one under the count that is now stored. */
  ghost predicate LabelHolds(h: Hasher, made: Result)
    requires made.outcome.Made?
  {
    !HashesClash(made.outcome.rev, NextRevision(h, made.owner, 0))
  }

  /** A store that has lost some revisions, but neither this greatest one nor the current one, is settled with it. */
  lemma HistorySettled(h: Hasher, revs: Store, after: Store, o: RunnerSet, o': RunnerSet, rev: ControllerRevision)
    requires Keyed(revs) && !HasUncontrolled(revs, o) && Greatest(rev, Owned(revs, o))
    requires Keyed(after) && after.Keys <= revs.Keys && forall n :: n in after ==> after[n] == revs[n]
    requires o'.(status := o.status) == o && IsEqual(rev, NextRevision(h, o', 0))
    requires rev.name in after && o'.status.next == rev.name && o'.status.collision.Some?
    requires Names(o'.status.current, after, o') && o'.status.current != ""
    ensures Settled(h, after, o', rev)
  {
    hide NextRevision, IsEqual, Decide;
    assert revs[rev.name] == rev;
    assert forall x :: x in Owned(after, o') ==> x in Owned(revs, o);
    assert rev in Owned(after, o') by { assert after[rev.name] == rev; }
    ReuseGreatest(h, after, o', rev);
  }

  lemma FleetSettledStatus(runners: Runners, o: RunnerSet, o': RunnerSet, rev: string)
    requires o'.(status := o.status) == o
    ensures FleetSettled(runners, o', rev) == FleetSettled(runners, o, rev)
  {
    assert Controlled(runners, o') == Controlled(runners, o);
    assert forall r :: Fit(r, o', rev) == Fit(r, o, rev);
  }

  /** One pass leaves exactly the desired number of runners, none complete, none idle with a stale label under
      RollingUpdate, and no orphan. On a sound store, unless the label of the pass's revision clashes with what its data
      would get under the count stored with it, a second pass adopts, creates and deletes no runner, writes no revision
      before truncating, and, once its status is written, both pointers name stored revisions: the next one the same as
      before, the current one as before or moved to it. */
  lemma ConvergesInOnePass(h: Hasher, w: World, w1: World, w2: World, env: Env, env2: Env, t: Trace, t2: Trace)
    requires Reconciles(h, w, w1, env, t) && Reconciles(h, w1, w2, env2, t2) && CalmFleet(w, env)
    requires MakeHistory(h, w.revs, w.owner, env.history).outcome.Made?
    ensures
      var made := MakeHistory(h, w.revs, w.owner, env.history);
      var rev := made.outcome.rev;
      && FleetSettled(w1.runners, w1.owner, rev.name)
      && (Calm(h, w, env) && NameIsOwn(h, w.revs, w.owner) && LabelHolds(h, made) ==>
            && MakeHistory(h, w1.revs, w1.owner, env2.history) == Result(Made(rev), w1.revs, w1.owner)
            && w2.runners == w1.runners && t2.pass.births == {}
            && (env2.commits ==>
                  && w2.owner.status.next == w1.owner.status.next == rev.name
                  && w2.owner.status.current in {w1.owner.status.current, rev.name}
                  && Names(w2.owner.status.next, w2.revs, w2.owner)
                  && Names(w2.owner.status.current, w2.revs, w2.owner)))
  {
    FirstPassFleet(h, w, w1, env, t);
    var made := MakeHistory(h, w.revs, w.owner, env.history);
    if Calm(h, w, env) && NameIsOwn(h, w.revs, w.owner) && LabelHolds(h, made) {
      FirstPassHistory(h, w, w1, env, t);
      hide MakeHistory, Calm, Settled, FleetSettled, Reconciles, Names, LabelHolds, NameIsOwn;
      SettledRepeats(h, w1.revs, w1.owner, made.outcome.rev, env2.history);
      if env2.commits { SecondPassPointers(h, w1, w2, made.outcome.rev, env2, t2); }
      SecondPassRunners(h, w1, w2, made.outcome.rev, env2, t2);
    } else {
      hide MakeHistory, Calm, FleetSettled, Reconciles, Names;
    }
  }

  /** Where nothing else listed has the template's data, the second call repeats the first one exactly when the label
      holds. */
  lemma RepeatsExactly(h: Hasher, w: World, w1: World, env: Env, t: Trace, again: Api)
    requires Calm(h, w, env) && MakeHistory(h, w.revs, w.owner, env.history).outcome.Made?
    requires Reconciles(h, w, w1, env, t) && NameIsOwn(h, w.revs, w.owner)
    requires var made := MakeHistory(h, w.revs, w.owner, env.history);
      && NameIsOwn(h, made.revs, made.owner)
      && forall x :: x in Owned(w.revs, w.owner) && x.raw == w.owner.template.raw ==> x.name == made.outcome.rev.name
    ensures Keyed(w1.revs)
    ensures var made := MakeHistory(h, w.revs, w.owner, env.history);
      MakeHistory(h, w1.revs, w1.owner, again) == Result(made.outcome, w1.revs, w1.owner) <==> LabelHolds(h, made)
  {
    var made := MakeHistory(h, w.revs, w.owner, env.history);
    var rev := made.outcome.rev;
    MadePointers(h, w.revs, w.owner, env.history);
    MadeSettles(h, w.revs, w.owner, env.history);
    PassPointers(w.owner, made.revs, made.owner, rev.name, w.runners, w1, env, t);
    if LabelHolds(h, made) {
      FirstPassHistory(h, w, w1, env, t);
      hide MakeHistory, LabelHolds, Calm, Settled, Reconciles;
      SettledRepeats(h, w1.revs, w1.owner, rev, again);
    } else {
      OnlyCarrier(w.revs, made.revs, w1.revs, w.owner, rev);
      SameNext(h, made.owner, w1.owner);
      hide MakeHistory, Calm, Reconciles, NextRevision, Settles, Owned;
      SameOwned(w1.revs, w.owner, w1.owner);
      ClashNeverRepeats(h, made.revs, w1.revs, w1.owner, rev, again);
    }
  }

  lemma OnlyCarrier(revs: Store, made: Store, after: Store, o: RunnerSet, rev: ControllerRevision)
    requires Keyed(revs) && Settles(revs, o, Write(rev, made), false)
    requires forall x :: x in Owned(revs, o) && x.raw == o.template.raw ==> x.name == rev.name
    requires Keyed(after) && after.Keys <= made.Keys && forall n :: n in after ==> after[n] == made[n]
    ensures forall x :: x in Owned(after, o) && x.raw == o.template.raw ==> x == rev
  {
    forall x | x in Owned(after, o) ensures made[x.name] == x && (x.name != rev.name ==> x in Owned(revs, o)) {
      assert after[x.name] == x;
    }
  }

  lemma ClashNeverRepeats(h: Hasher, made: Store, after: Store, o: RunnerSet, rev: ControllerRevision, api: Api)
    requires Keyed(after) && after.Keys <= made.Keys && forall n :: n in after ==> after[n] == made[n]
    requires forall x :: x in Owned(after, o) && x.raw == o.template.raw ==> x == rev
    requires HashesClash(rev, NextRevision(h, o, 0)) && NameIsOwn(h, made, o)
    requires rev.name in made && made[rev.name] == rev
    ensures MakeHistory(h, after, o, api) != Result(Made(rev), after, o)
  {
    var res := MakeHistory(h, after, o, api);
    if res == Result(Made(rev), after, o) {
      MadeIsCarried(h, after, o, api);
      DecideFits(h, after, o);
      var plan := Decide(h, after, o);
      hide MakeHistory, Decide;
      NoPlanRepeats(h, made, after, o, rev, plan, api);
    }
  }

  lemma NoPlanRepeats(
    h: Hasher, made: Store, after: Store, o: RunnerSet, rev: ControllerRevision, plan: Plan, api: Api)
    requires Keyed(after) && PlanFits(h, after, o, plan) && Carry(after, o, plan, api).Wrote?
    requires forall x :: x in Owned(after, o) && x.raw == o.template.raw ==> x == rev
    requires HashesClash(rev, NextRevision(h, o, 0)) && NameIsOwn(h, made, o)
    requires rev.name in made && made[rev.name] == rev
    ensures Carry(after, o, plan, api).write != Write(rev, after)
  {
    forall e | e in Owned(after, o) ensures !IsEqual(e, NextRevision(h, o, 0)) {
      assert e.raw == o.template.raw ==> e == rev;
    }
    if plan.CreateNew? {
      CreateLoopStored(after, plan.next, CollisionCount(o), api);
      assert plan.next.name == NextRevision(h, o, 0).name;
    } else {
      SameNextData(h, o, if plan.Rollback? then plan.number else 0);
      hide IsEqual, NextRevision, HashesClash, NameIsOwn;
    }
  }

  /** A RunnerSet with no revision yet: what its first pass makes is repeated exactly when the two labels its template
      gets, with no count and under the one then stored, do not clash. */
  lemma FirstRevisionRepeatsExactly(h: Hasher, w: World, w1: World, env: Env, t: Trace, again: Api)
    requires Calm(h, w, env) && Reconciles(h, w, w1, env, t) && Owned(w.revs, w.owner) == {}
    requires MakeHistory(h, w.revs, w.owner, env.history).outcome.Made?
    ensures Keyed(w1.revs)
    ensures
      var made := MakeHistory(h, w.revs, w.owner, env.history);
      var raw, count := w.owner.template.raw, w.owner.status.collision;
      MakeHistory(h, w1.revs, w1.owner, again) == Result(made.outcome, w1.revs, w1.owner) <==>
        !LabelsClash(h(raw, count), h(raw, Some(CollisionCount(w.owner))))
  {
    FirstRevisionIsOwn(h, w, env);
    hide MakeHistory, Calm, Reconciles, NameIsOwn, NextRevision;
    RepeatsExactly(h, w, w1, env, t, again);
  }

  lemma FirstRevisionIsOwn(h: Hasher, w: World, env: Env)
    requires Calm(h, w, env) && Owned(w.revs, w.owner) == {}
    requires MakeHistory(h, w.revs, w.owner, env.history).outcome.Made?
    ensures
      var made := MakeHistory(h, w.revs, w.owner, env.history);
      var raw, count := w.owner.template.raw, w.owner.status.collision;
      && NameIsOwn(h, w.revs, w.owner) && NameIsOwn(h, made.revs, made.owner)
      && (LabelHolds(h, made) <==> !LabelsClash(h(raw, count), h(raw, Some(CollisionCount(w.owner)))))
  {
    var made := MakeHistory(h, w.revs, w.owner, env.history);
    NoNameYet(h, w.revs, w.owner);
    MadeRevision(h, w.revs, w.owner, env.history);
    MadeIsCarried(h, w.revs, w.owner, env.history);
    DecideFits(h, w.revs, w.owner);
    var plan := Decide(h, w.revs, w.owner);
    hide MakeHistory, Decide;
    CreateLoopStored(w.revs, plan.next, CollisionCount(w.owner), env.history);
    hide Settles, PlanFits;
    FirstIsNamed(h, w.revs, w.owner, made.revs, made.owner, plan.next, env.history.now);
  }

  lemma NoNameYet(h: Hasher, revs: Store, o: RunnerSet)
    requires StoreSound(h, revs, o) && Owned(revs, o) == {}
    ensures forall raw, probe :: Name(o.name, h(raw, probe)) !in revs
    ensures NameIsOwn(h, revs, o)
  {
    assert forall n :: n in revs ==> (revs[n] in Owned(revs, o) <==> Listed(revs[n], o));
    assert NextRevision(h, o, 0).name == Name(o.name, h(o.template.raw, o.status.collision));
  }

  lemma FirstIsNamed(
    h: Hasher, revs: Store, o: RunnerSet, made: Store, o': RunnerSet, next: ControllerRevision, now: int)
    requires SelectorFits(o) && (forall raw, probe :: Name(o.name, h(raw, probe)) !in revs)
    requires next == NextRevision(h, o, next.number) && made == revs[next.name := next.(created := now)]
    requires o'.(status := o.status) == o && o'.status.collision == Some(CollisionCount(o))
    ensures NameIsOwn(h, made, o')
    ensures HashesClash(next.(created := now), NextRevision(h, o', 0)) <==>
      LabelsClash(h(o.template.raw, o.status.collision), h(o.template.raw, Some(CollisionCount(o))))
  {
    NextListed(h, o, next.number, now);
    NameInjective(o.name, h(o.template.raw, o.status.collision), h(o.template.raw, o'.status.collision));
    assert NextRevision(h, o', 0).name == Name(o.name, h(o.template.raw, o'.status.collision));
  }

  /** A RunnerSet whose revisions are named by their data, as on any run from creation, meets both conditions. */
  lemma NamedDataConverges(h: Hasher, c: int, w: World, env: Env)
    requires Calm(h, w, env) && NamedByData(h, c, State(w.revs, w.owner))
    requires MakeHistory(h, w.revs, w.owner, env.history).outcome.Made?
    ensures NameIsOwn(h, w.revs, w.owner) && LabelHolds(h, MakeHistory(h, w.revs, w.owner, env.history))
  {
    OwnName(h, c, w.revs, w.owner);
    MadeSettles(h, w.revs, w.owner, env.history);
    MadePointers(h, w.revs, w.owner, env.history);
    var s := State(w.revs, w.owner);
    StaysKeyed(h, s, Call(env.history));
    DoKeepsNames(h, c, s, Call(env.history));
    var made := MakeHistory(h, w.revs, w.owner, env.history);
    var after := Do(h, s, Call(env.history));
    SameOwned(made.revs, w.owner, made.owner);
    hide MakeHistory, NamedByData, NameIsOwn, StoreSound;
    OwnDataIsEqual(h, c, after, made.outcome.rev, 0);
  }

  lemma SecondPassRunners(h: Hasher, w1: World, w2: World, rev: ControllerRevision, env: Env, t: Trace)
    requires KeyedRunners(w1.runners) && FleetSettled(w1.runners, w1.owner, rev.name) && Reconciles(h, w1, w2, env, t)
    requires MakeHistory(h, w1.revs, w1.owner, env.history) == Result(Made(rev), w1.revs, w1.owner)
    ensures w2.runners == w1.runners && t.pass.births == {}
  {
    hide MakeHistory, Passes, FleetSettled, RetainedOf;
    SettledPassDoesNothing(w1.owner, rev.name, w1.runners, w2.runners, t.pass);
  }

  lemma SecondPassPointers(h: Hasher, w1: World, w2: World, rev: ControllerRevision, env: Env, t: Trace)
    requires Keyed(w1.revs) && Settled(h, w1.revs, w1.owner, rev) && rev.name != ""
    requires Reconciles(h, w1, w2, env, t) && env.commits
    requires MakeHistory(h, w1.revs, w1.owner, env.history) == Result(Made(rev), w1.revs, w1.owner)
    ensures w2.owner.status.next == w1.owner.status.next == rev.name
    ensures w2.owner.status.current in {w1.owner.status.current, rev.name}
    ensures Names(w2.owner.status.next, w2.revs, w2.owner) && Names(w2.owner.status.current, w2.revs, w2.owner)
  {
    DecideFits(h, w1.revs, w1.owner);
    assert Names(rev.name, w1.revs, w1.owner);
    hide MakeHistory, AfterHistory, Decide, MovesCurrent, RetainedOf;
    PassPointers(w1.owner, w1.revs, w1.owner, rev.name, w1.runners, w2, env, t);
    StatusIrrelevant(h, w2.revs, w2.runners, w1.owner, w2.owner);
  }

  lemma FirstPassFleet(h: Hasher, w: World, w1: World, env: Env, t: Trace)
    requires Reconciles(h, w, w1, env, t) && CalmFleet(w, env)
    requires MakeHistory(h, w.revs, w.owner, env.history).outcome.Made?
    ensures KeyedRunners(w1.runners)
    ensures FleetSettled(w1.runners, w1.owner, MakeHistory(h, w.revs, w.owner, env.history).outcome.rev.name)
  {
    CallWrites(h, w.revs, w.owner, env.history);
    var made := MakeHistory(h, w.revs, w.owner, env.history);
    StaysKeyed(h, State(w.revs, w.owner), Call(env.history));
    hide MakeHistory, WritesOne, NamesReserved, HasUncontrolled, PointersNamed, Passes, AfterHistory;
    FleetAfterHistory(h, w.owner, made.revs, made.owner, made.outcome.rev.name, w.runners, w1, env, t);
  }

  lemma FleetAfterHistory(
    h: Hasher, persisted: RunnerSet, revs: Store, o: RunnerSet, rev: string,
    before: Runners, w1: World, env: Env, t: Trace)
    requires Keyed(revs) && AfterHistory(persisted, revs, o, rev, before, w1, env, t)
    requires KeyedRunners(before) && NoFinalizers(before) && SelectorFits(o) && o.desired >= 0
    requires Cooperative(env.fleet) && env.commits
    ensures KeyedRunners(w1.runners) && FleetSettled(w1.runners, w1.owner, rev)
  {
    PassPointers(persisted, revs, o, rev, before, w1, env, t);
    hide Passes, FleetSettled, RetainedOf, Truncate, Lists, MovesCurrent;
    OnePassSettles(o, rev, before, w1.runners, t.pass);
    PassKeepsKeys(o, rev, before, w1.runners, t.pass);
    FleetSettledStatus(w1.runners, o, w1.owner, rev);
  }

  lemma FirstPassHistory(h: Hasher, w: World, w1: World, env: Env, t: Trace)
    requires Calm(h, w, env) && MakeHistory(h, w.revs, w.owner, env.history).outcome.Made?
    requires Reconciles(h, w, w1, env, t) && NameIsOwn(h, w.revs, w.owner)
    requires LabelHolds(h, MakeHistory(h, w.revs, w.owner, env.history))
    ensures
      var rev := MakeHistory(h, w.revs, w.owner, env.history).outcome.rev;
      Keyed(w1.revs) && Settled(h, w1.revs, w1.owner, rev) && rev.name != ""
  {
    MadeSettles(h, w.revs, w.owner, env.history);
    HistoryKeepsNames(h, w.revs, w.owner, env.history);
    hide MakeHistory, NameIsOwn;
    var made := MakeHistory(h, w.revs, w.owner, env.history);
    var rev := made.outcome.rev;
    assert rev.raw == NextRevision(h, made.owner, 0).raw;
    hide NextRevision;
    assert IsEqual(rev, NextRevision(h, made.owner, 0));
    hide IsEqual, HashesClash;
    SameOwned(made.revs, w.owner, made.owner);
    SameUncontrolled(made.revs, w.owner, made.owner);
    StatusIrrelevant(h, made.revs, w.runners, w.owner, made.owner);
    hide Owned, HasUncontrolled, NamesReserved;
    AfterFirstHistory(h, w.owner, made.revs, made.owner, rev, w.runners, w1, env, t);
  }

  lemma SameNext(h: Hasher, o: RunnerSet, o': RunnerSet)
    requires o'.(status := o.status) == o && o'.status.collision == o.status.collision
    ensures NextRevision(h, o', 0) == NextRevision(h, o, 0)
  {
  }

  lemma AfterFirstHistory(
    h: Hasher, persisted: RunnerSet, revs: Store, o: RunnerSet, rev: ControllerRevision,
    before: Runners, w1: World, env: Env, t: Trace)
    requires AfterHistory(persisted, revs, o, rev.name, before, w1, env, t) && env.commits
    requires Keyed(revs) && !HasUncontrolled(revs, o)
    requires rev.name in revs && revs[rev.name] == rev && Greatest(rev, Owned(revs, o))
    requires IsEqual(rev, NextRevision(h, o, 0)) && rev.name != ""
    requires o.status.next == rev.name && o.status.collision.Some?
    requires Names(o.status.current, revs, o) && o.status.current != ""
    ensures Keyed(w1.revs) && Settled(h, w1.revs, w1.owner, rev)
  {
    PassPointers(persisted, revs, o, rev.name, before, w1, env, t);
    assert Names(rev.name, revs, o);
    SameNext(h, o, w1.owner);
    StatusIrrelevant(h, w1.revs, before, o, w1.owner);
    hide AfterHistory, NextRevision, IsEqual, RetainedOf, MovesCurrent;
    HistorySettled(h, revs, w1.revs, o, w1.owner, rev);
  }

  lemma SameUncontrolled(revs: Store, o: RunnerSet, o': RunnerSet)
    requires o'.selector == o.selector
    ensures HasUncontrolled(revs, o') == HasUncontrolled(revs, o)
  {
  }

  /* ---- a lost status write ---- */

  /** The pass moves the current revision in its working copy, and the revision it moved away from is among the first
      unreferenced ones in the listing, which are truncated. */
  ghost predicate DropsCurrent(current: string, kept: seq<Runner>, rev: string, o: RunnerSet, env: Env, t: Trace) {
    var h := Unreferenced(t.listing, {rev});
    MovesCurrent(kept, rev, t) && current in NamesOf(h[..Pruned(h, o.limit, |t.listing|, env.truncates)])
  }

  /** Exactly when a pass truncates the current revision it started from. */
  lemma CurrentTruncatedExactly(
    persisted: RunnerSet, revs: Store, o: RunnerSet, rev: string, before: Runners, w': World, env: Env, t: Trace)
    requires Keyed(revs) && AfterHistory(persisted, revs, o, rev, before, w', env, t)
    requires o.status.current in revs && o.status.current != "" && rev != "" && o.status.next == rev
    ensures o.status.current !in w'.revs <==>
      DropsCurrent(o.status.current, RetainedOf(t.pass.list, o, rev, env.fleet), rev, o, env, t)
  {
    PassPointers(persisted, revs, o, rev, before, w', env, t);
    hide RetainedOf, Lists, Owned, Count, HasRevision, Unreferenced, Prune, Pruned, Referenced;
    var kept, order := RetainedOf(t.pass.list, o, rev, env.fleet), t.pass.order;
    if MovesCurrent(kept, rev, t) {
      var moved := Moved(Counted(o, kept), order, rev);
      CurrentMovesWhenAllUpdated(o, kept, order, rev);
      OrderHoldsKept(kept, order, o.desired);
      OnlyReferenced(moved, rev, order);
      PruneTakes(revs, Unreferenced(t.listing, {rev}), o.limit, |t.listing|, env.truncates);
    }
  }

  lemma OnlyReferenced(o: RunnerSet, rev: string, order: seq<Runner>)
    requires o.status.current == rev && o.status.next == rev && rev != ""
    requires forall r :: r in order ==> LabelOf(r.labels) == rev
    ensures Referenced(o, LabelsOf(order)) == {rev}
  {
    forall l | l in LabelsOf(order) ensures LabelOf(l) == rev {
      var i :| 0 <= i < |order| && LabelsOf(order)[i] == l;
      assert order[i] in order;
    }
  }

  /** When the deferred status write fails, TruncateHistory has already worked with the pointers that were lost. The
      next MakeHistory then dereferences nil exactly when the pass dropped the current revision that is still the
      persisted one, unless it is stuck on a clashing name, which needs a clash before the pass. */
  lemma LostStatusWrite(h: Hasher, w: World, w': World, env: Env, t: Trace, again: Api)
    requires Sound(h, w) && Reconciles(h, w, w', env, t) && !env.commits && AllAccepted(again)
    requires MakeHistory(h, w.revs, w.owner, env.history).outcome.Made?
    ensures Keyed(w'.revs)
    ensures
      var made := MakeHistory(h, w.revs, w.owner, env.history);
      var rev, current := made.outcome.rev.name, w.owner.status.current;
      var kept := RetainedOf(t.pass.list, made.owner, rev, env.fleet);
      var out := MakeHistory(h, w'.revs, w'.owner, again).outcome;
      && (out.NilCurrent? <==>
            && current != "" && DropsCurrent(current, kept, rev, w.owner, env, t)
            && !Stuck(h, w'.revs, w.owner))
      && (!Clashes(w.revs, NextRevision(h, w.owner, 0)) ==> !Stuck(h, w'.revs, w.owner))
  {
    HistoryKeepsNames(h, w.revs, w.owner, env.history);
    MadePointers(h, w.revs, w.owner, env.history);
    CallWrites(h, w.revs, w.owner, env.history);
    LeavesControlled(h, w.revs, w.owner, env.history);
    var made := MakeHistory(h, w.revs, w.owner, env.history);
    if !Clashes(w.revs, NextRevision(h, w.owner, 0)) { NoNewClash(h, w.revs, made.revs, w.owner, env.history.now); }
    hide MakeHistory, DropsCurrent, RetainedOf, MovesCurrent, WritesOne, NamesReserved, RunnersLabelled;
    var rev := made.outcome.rev.name;
    PassPointers(w.owner, made.revs, made.owner, rev, w.runners, w', env, t);
    StatusIrrelevant(h, made.revs, w.runners, w.owner, made.owner);
    FewerUncontrolled(made.revs, w'.revs, made.owner, w'.owner);
    if w.owner.status.current != "" {
      CurrentTruncatedExactly(w.owner, made.revs, made.owner, rev, w.runners, w', env, t);
      SameDrop(w.owner, made.owner, RetainedOf(t.pass.list, made.owner, rev, env.fleet), rev, env, t);
    }
    FailsExactly(h, w'.revs, w'.owner, again);
    hide AfterHistory, HasUncontrolled, Decide, NextRevision, PlanFits;
  }

  lemma SameDrop(o: RunnerSet, o': RunnerSet, kept: seq<Runner>, rev: string, env: Env, t: Trace)
    requires o'.limit == o.limit
    ensures forall n :: DropsCurrent(n, kept, rev, o', env, t) == DropsCurrent(n, kept, rev, o, env, t)
  {
  }

  lemma NoNewClash(h: Hasher, revs: Store, after: Store, o: RunnerSet, now: int)
    requires Keyed(revs) && WritesOne(h, revs, o, after, now) && !Clashes(revs, NextRevision(h, o, 0))
    ensures !Clashes(after, NextRevision(h, o, 0))
  {
  }

  /* Such a pass: the template is LATER's again, no runner is left, the limit is 0, and FIRST is deleted while the
     persisted owner still points to it. */

  const SET := RunnerSet("s", "u", map[], Template("B", map[]), 0, false, 0, Status("s-A", "s-A", Some(0), 0, 0, 0))
  const SET_MADE := SET.(status := SET.status.(next := "s-B"))
  const SET_MOVED := SET.(status := SET.status.(current := "s-B", next := "s-B"))
  const WILLING := FleetApi(n => true, n => true, i => true)
  const LOSING := Env(Api(0, i => Accepted, 1), WILLING, 5, false)

  lemma LostStatusWriteHappens()
    ensures
      var before := World(map["s-A" := FIRST, "s-B" := LATER], map[], SET);
      var after := World(map["s-B" := LATER], map[], SET);
      && Reconciles(DataAsHash, before, after, LOSING, Trace(Pass([], [], {}, WILLING, false), [FIRST, LATER]))
      && MakeHistory(DataAsHash, before.revs, SET, LOSING.history).outcome == Made(LATER)
      && Keyed(after.revs) && MakeHistory(DataAsHash, after.revs, SET, LOSING.history).outcome == NilCurrent
  {
    HistoryExamples();
    LostAfterHistory();
    hide MakeHistory, AfterHistory;
  }

  lemma LostAfterHistory()
    ensures AfterHistory(SET, map["s-A" := FIRST, "s-B" := LATER], SET_MADE, "s-B", map[],
      World(map["s-B" := LATER], map[], SET), LOSING, Trace(Pass([], [], {}, WILLING, false), [FIRST, LATER]))
  {
    OldIsTruncated();
    EmptyPass();
    OwnedExamples(SET_MADE);
    hide Owned, Passes, Truncate, Moved, LabelsOf;
    assert Lists([FIRST, LATER], {FIRST, LATER});
    assert RetainedOf([], SET_MADE, "s-B", WILLING) == [];
    assert Counted(SET_MADE, []) == SET_MADE;
  }

  lemma HistoryExamples()
    ensures
      var revs, left := map["s-A" := FIRST, "s-B" := LATER], map["s-B" := LATER];
      && Keyed(revs) && Keyed(left)
      && MakeHistory(DataAsHash, revs, SET, LOSING.history) == Result(Made(LATER), revs, SET_MADE)
      && MakeHistory(DataAsHash, left, SET, LOSING.history).outcome == NilCurrent
  {
    var revs, left := map["s-A" := FIRST, "s-B" := LATER], map["s-B" := LATER];
    OwnedExamples(SET);
    NewIsReused(revs, {FIRST, LATER});
    NewIsReused(left, {LATER});
    hide Decide, Owned;
    FailsExactly(DataAsHash, left, SET, LOSING.history);
  }

  lemma OwnedExamples(o: RunnerSet)
    requires o.uid == "u" && o.selector == map[]
    ensures var revs, left := map["s-A" := FIRST, "s-B" := LATER], map["s-B" := LATER];
      && Keyed(revs) && Keyed(left) && Owned(revs, o) == {FIRST, LATER} && Owned(left, o) == {LATER}
      && !HasUncontrolled(revs, o) && !HasUncontrolled(left, o)
      && CurrentListed(revs, SET) && !CurrentListed(left, SET)
  {
    var revs, left := map["s-A" := FIRST, "s-B" := LATER], map["s-B" := LATER];
    assert revs["s-A"] in Owned(revs, o) && revs["s-B"] in Owned(revs, o) && left["s-B"] in Owned(left, o);
  }

  lemma NewIsReused(revs: Store, owned: set<ControllerRevision>)
    requires Keyed(revs) && Owned(revs, SET) == owned && LATER in owned && owned <= {FIRST, LATER}
    ensures Decide(DataAsHash, revs, SET) == Reuse(LATER)
  {
    RevisionLessStrict(LATER, LATER, LATER);
    assert IsEqual(LATER, NextRevision(DataAsHash, SET, 0));
    ReuseGreatest(DataAsHash, revs, SET, LATER);
  }

  lemma OldIsTruncated()
    ensures Truncate(map["s-A" := FIRST, "s-B" := LATER], SET_MOVED, [FIRST, LATER], LabelsOf([]), 5)
         == Kept(map["s-B" := LATER])
  {
    assert LabelsOf([]) == [];
    assert Referenced(SET_MOVED, []) == {"s-B"};
    assert [FIRST, LATER][..1] == [FIRST] && [FIRST][..0] == [];
    assert Unreferenced([FIRST], {"s-B"}) == [FIRST];
    assert Unreferenced([FIRST, LATER], {"s-B"}) == [FIRST];
    assert NamesOf([FIRST]) == {"s-A"};
    assert map["s-A" := FIRST, "s-B" := LATER] - {"s-A"} == map["s-B" := LATER];
  }

  lemma EmptyPass()
    ensures Passes(SET_MADE, "s-B", map[], map[], Pass([], [], {}, WILLING, false))
    ensures Moved(SET_MADE, [], "s-B") == SET_MOVED
  {
    assert RunnerNames([]) == {};
  }
}
