/** What MakeHistory guarantees: on one call, on two calls in a row, and on any sequence of template edits and calls. */
module HistoryProperties {
  import opened Strings
  import opened Revisions
  import opened History

  /** The template's labels match the selector. The admission webhook checks this on create, not on update. */
  predicate SelectorFits(o: RunnerSet) {
    HASH_LABEL !in o.selector && Matches(o.selector, o.template.labels)
  }

  /** A stored revision under the name the template hashes to is one of this owner's, labelled with that hash. */
  predicate NameIsOwn(h: Hasher, revs: Store, o: RunnerSet) {
    var next := NextRevision(h, o, 0);
    next.name in revs ==>
      && Listed(revs[next.name], o)
      && HASH_LABEL in revs[next.name].labels
      && revs[next.name].labels[HASH_LABEL] == next.labels[HASH_LABEL]
  }

  lemma SameLabelSameHash(a: ControllerRevision, b: ControllerRevision)
    requires HASH_LABEL in a.labels && HASH_LABEL in b.labels && a.labels[HASH_LABEL] == b.labels[HASH_LABEL]
    ensures IsEqual(a, b) <==> a.raw == b.raw
  {
  }

  lemma NextListed(h: Hasher, o: RunnerSet, number: int, created: int)
    requires SelectorFits(o)
    ensures Listed(NextRevision(h, o, number).(created := created), o)
  {
  }

  /** An update that never reached the store: the rollback branch was taken and its Update met a conflict. */
  predicate Lost(plan: Plan, api: Api) {
    plan.Rollback? && api.replies(0) == Conflict
  }

  /** The write `w` settles the template: it carries its data, changes nothing else in the store, and, unless it was
      lost, is stored and is the greatest of the owner's revisions, numbered above all others if anything changed. */
  ghost predicate Settles(revs: Store, o: RunnerSet, w: Write, lost: bool) {
    && w.rev.raw == o.template.raw && Listed(w.rev, o) && w.rev.name in w.revs && Keyed(w.revs)
    && (lost <==> w.revs[w.rev.name] != w.rev)
    && (lost ==> w.revs == revs && revs[w.rev.name].number < w.rev.number)
    && (!lost ==>
          && w.revs == revs[w.rev.name := w.rev]
          && Greatest(w.rev, Owned(w.revs, o))
          && (w.revs != revs ==> forall r :: r in Owned(revs, o) ==> r.number < w.rev.number))
  }

  lemma PlanSettles(h: Hasher, revs: Store, o: RunnerSet, plan: Plan, api: Api)
    requires Keyed(revs) && PlanFits(h, revs, o, plan) && Carry(revs, o, plan, api).Wrote?
    requires SelectorFits(o) && NameIsOwn(h, revs, o)
    ensures Settles(revs, o, Carry(revs, o, plan, api).write, Lost(plan, api))
    ensures Carry(revs, o, plan, api).count == CollisionCount(o)
    ensures !plan.Reuse? ==> IsEqual(Carry(revs, o, plan, api).write.rev, NextRevision(h, o, 0))
  {
    match plan {
      case Reuse(r) =>
        assert revs == revs[r.name := r];
      case Rollback(r, n) =>
        PutGreatest(revs, o, r.(number := n));
      case CreateNew(next) =>
        CreateSettles(h, revs, o, next, api);
        CreateLoopStored(revs, next, CollisionCount(o), api);
    }
  }

  lemma TakenNameIsEqual(h: Hasher, revs: Store, o: RunnerSet, next: ControllerRevision)
    requires NameIsOwn(h, revs, o) && next == NextRevision(h, o, next.number)
    ensures next.name in revs && revs[next.name].raw == next.raw ==>
      revs[next.name] in Owned(revs, o) && IsEqual(revs[next.name], next)
  {
    assert next.labels == NextRevision(h, o, 0).labels;
  }

  lemma CreateSettles(h: Hasher, revs: Store, o: RunnerSet, next: ControllerRevision, api: Api)
    requires Keyed(revs) && PlanFits(h, revs, o, CreateNew(next))
    requires CreateLoop(revs, next, CollisionCount(o), api, 0).Stored?
    requires SelectorFits(o) && NameIsOwn(h, revs, o)
    ensures var c := CreateLoop(revs, next, CollisionCount(o), api, 0);
      Settles(revs, o, Write(c.rev, c.revs), false) && c.count == CollisionCount(o) && next.name !in revs
  {
    CreateLoopStored(revs, next, CollisionCount(o), api);
    assert next.name == NextRevision(h, o, 0).name && next.labels == NextRevision(h, o, 0).labels;
    TakenNameIsEqual(h, revs, o, next);
    NextListed(h, o, next.number, api.now);
    PutGreatest(revs, o, next.(created := api.now));
  }

  /** What a successful call returns and stores is what its plan's write amounts to. */
  lemma MadeIsCarried(h: Hasher, revs: Store, o: RunnerSet, api: Api)
    requires Keyed(revs) && MakeHistory(h, revs, o, api).outcome.Made?
    ensures
      var res := MakeHistory(h, revs, o, api);
      var done := Carry(revs, o, Decide(h, revs, o), api);
      && done.Wrote? && res == Finish(revs, o, done.write, done.count) && !HasUncontrolled(revs, o)
      && res.outcome.rev == done.write.rev && res.revs == done.write.revs
  {
    hide Carry, Decide, HasUncontrolled;
  }

  /** A call succeeds with the template's own revision: same data in all three branches, stored and greatest unless
      its update was lost, numbered above every other when anything was written. */
  lemma MadeRevision(h: Hasher, revs: Store, o: RunnerSet, api: Api)
    requires Keyed(revs) && MakeHistory(h, revs, o, api).outcome.Made?
    requires SelectorFits(o) && NameIsOwn(h, revs, o)
    ensures
      var res := MakeHistory(h, revs, o, api);
      var rev := res.outcome.rev;
      && Settles(revs, o, Write(rev, res.revs), Lost(Decide(h, revs, o), api))
      && res.owner.(status := o.status) == o && res.owner.status.next == rev.name
      && res.owner.status.collision == Some(CollisionCount(o))
  {
    MadeIsCarried(h, revs, o, api);
    DecideFits(h, revs, o);
    PlanSettles(h, revs, o, Decide(h, revs, o), api);
    hide MakeHistory, Carry, Decide, Settles, PlanFits, NameIsOwn, SelectorFits;
  }

  lemma PutGreatest(revs: Store, o: RunnerSet, r: ControllerRevision)
    requires Keyed(revs) && Listed(r, o)
    requires forall x :: x in Owned(revs, o) ==> x.number < r.number
    ensures Keyed(revs[r.name := r]) && Greatest(r, Owned(revs[r.name := r], o))
  {
    var after := revs[r.name := r];
    assert r == after[r.name];
    forall x | x in Owned(after, o) ensures !RevisionLess(r, x) {
      RevisionLessStrict(r, r, r);
      if x.name != r.name { assert x in Owned(revs, o); }
    }
  }

  lemma SameOwned(revs: Store, o: RunnerSet, o': RunnerSet)
    requires o'.selector == o.selector && o'.uid == o.uid
    ensures Owned(revs, o') == Owned(revs, o)
  {
  }

  lemma SameDecision(h: Hasher, revs: Store, o: RunnerSet, o': RunnerSet)
    requires Keyed(revs) && o.(status := o'.status) == o' && o.status.collision == o'.status.collision
    ensures Decide(h, revs, o') == Decide(h, revs, o)
  {
    SameOwned(revs, o, o');
    var n := NextNumber(Ascending(Owned(revs, o)));
    assert NextRevision(h, o', n) == NextRevision(h, o, n);
  }

  /** In such a state MakeHistory has nothing left to do. */
  ghost predicate Settled(h: Hasher, revs: Store, o: RunnerSet, rev: ControllerRevision)
    requires Keyed(revs)
  {
    && Decide(h, revs, o) == Reuse(rev) && !HasUncontrolled(revs, o)
    && (if o.status.current == "" then rev.name == "" else CurrentListed(revs, o))
    && o.status.next == rev.name && o.status.collision.Some?
  }

  lemma SettledRepeats(h: Hasher, revs: Store, o: RunnerSet, rev: ControllerRevision, api: Api)
    requires Keyed(revs) && Settled(h, revs, o, rev)
    ensures MakeHistory(h, revs, o, api) == Result(Made(rev), revs, o)
  {
  }

  lemma WriteDecides(h: Hasher, revs: Store, o: RunnerSet, plan: Plan, api: Api, o': RunnerSet)
    requires Keyed(revs) && plan == Decide(h, revs, o) && Carry(revs, o, plan, api).Wrote?
    requires SelectorFits(o) && NameIsOwn(h, revs, o) && !Lost(plan, api)
    requires o.(status := o'.status) == o' && o.status.collision == o'.status.collision
    ensures var w := Carry(revs, o, plan, api).write;
      Keyed(w.revs) && Decide(h, w.revs, o') == Reuse(w.rev)
  {
    DecideFits(h, revs, o);
    PlanSettles(h, revs, o, plan, api);
    SameDecision(h, revs, o, o');
    var w := Carry(revs, o, plan, api).write;
    if !plan.Reuse? {
      SameOwned(w.revs, o, o');
      ReuseGreatest(h, w.revs, o', w.rev);
    }
  }

  /** Calling again with nothing changed returns the same revision and writes nothing, whatever the server would
      answer: the reuse branch is taken. */
  lemma Idempotent(h: Hasher, revs: Store, o: RunnerSet, api: Api, again: Api)
    requires Keyed(revs) && MakeHistory(h, revs, o, api).outcome.Made?
    requires SelectorFits(o) && NameIsOwn(h, revs, o) && !Lost(Decide(h, revs, o), api)
    requires o.status.collision.Some?
    ensures
      var first := MakeHistory(h, revs, o, api);
      Keyed(first.revs) && Settled(h, first.revs, first.owner, first.outcome.rev) &&
      MakeHistory(h, first.revs, first.owner, again) == first
  {
    MadeIsCarried(h, revs, o, api);
    DecideFits(h, revs, o);
    hide MakeHistory, Carry, Decide, PlanFits, NameIsOwn, SelectorFits, HasUncontrolled, Owned;
    var plan, first := Decide(h, revs, o), MakeHistory(h, revs, o, api);
    var w := Carry(revs, o, plan, api).write;
    PlanSettles(h, revs, o, plan, api);
    WriteDecides(h, revs, o, plan, api, first.owner);
    NoUncontrolled(revs, o, w.rev);
    CurrentStays(revs, o, w);
    SettledRepeats(h, first.revs, first.owner, w.rev, again);
  }

  lemma CurrentStays(revs: Store, o: RunnerSet, w: Write)
    requires Listed(w.rev, o) && w.revs == revs[w.rev.name := w.rev]
    requires Finish(revs, o, w, CollisionCount(o)).outcome.Made?
    ensures var o' := Finish(revs, o, w, CollisionCount(o)).owner;
      if o'.status.current == "" then w.rev.name == "" else CurrentListed(w.revs, o')
  {
  }

  lemma NoUncontrolled(revs: Store, o: RunnerSet, r: ControllerRevision)
    requires !HasUncontrolled(revs, o) && r.controller.Some?
    ensures !HasUncontrolled(revs[r.name := r], o)
  {
  }

  /* ---- when a call does not succeed ---- */

  ghost predicate AllAccepted(api: Api) {
    api.rounds > 0 && forall i :: api.replies(i) == Accepted
  }

  /** The call would create a revision under a name that other data has. */
  ghost predicate Stuck(h: Hasher, revs: Store, o: RunnerSet)
    requires Keyed(revs)
  {
    Decide(h, revs, o).CreateNew? && Clashes(revs, NextRevision(h, o, 0))
  }

  /** With a co-operative API the call fails on a clashing name or, by a nil dereference, on a current revision that
      is not in the list; exactly then. */
  lemma FailsExactly(h: Hasher, revs: Store, o: RunnerSet, api: Api)
    requires Keyed(revs) && !HasUncontrolled(revs, o) && AllAccepted(api)
    ensures var out := MakeHistory(h, revs, o, api).outcome;
      var stuck := Stuck(h, revs, o);
      && (out.Colliding? <==> stuck)
      && (out.NilCurrent? <==> !stuck && o.status.current != "" && !CurrentListed(revs, o))
      && (out.Made? <==> !stuck && (o.status.current == "" || CurrentListed(revs, o)))
  {
    DecideFits(h, revs, o);
    CarryEnds(h, revs, o, Decide(h, revs, o), api);
  }

  lemma CarryEnds(h: Hasher, revs: Store, o: RunnerSet, plan: Plan, api: Api)
    requires Keyed(revs) && PlanFits(h, revs, o, plan) && AllAccepted(api)
    ensures var res := Carry(revs, o, plan, api);
      !res.WriteRejected? && (res.WriteColliding? <==> plan.CreateNew? && Clashes(revs, NextRevision(h, o, 0)))
  {
    if plan.CreateNew? { CreateLoopEnds(revs, plan.next, CollisionCount(o), api, 0); }
  }

  /** ListRevision reads a missing controller exactly when some revision with all of the selector's labels has none. */
  lemma NilControllerExactly(h: Hasher, revs: Store, o: RunnerSet, api: Api)
    requires Keyed(revs)
    ensures MakeHistory(h, revs, o, api).outcome.NilController? <==>
      exists n :: n in revs && o.selector.Items <= revs[n].labels.Items && revs[n].controller.None?
  {
    UncontrolledIsNil(h, revs, o, api);
    forall n | n in revs ensures Matches(o.selector, revs[n].labels) <==> o.selector.Items <= revs[n].labels.Items {
      MatchesItems(o.selector, revs[n].labels);
    }
    hide Matches, MakeHistory;
  }

  lemma UncontrolledIsNil(h: Hasher, revs: Store, o: RunnerSet, api: Api)
    requires Keyed(revs)
    ensures MakeHistory(h, revs, o, api).outcome.NilController? <==> HasUncontrolled(revs, o)
  {
    hide HasUncontrolled, Decide, Carry;
  }

  /** Reusing a revision sends no write and so cannot be refused. */
  lemma ReuseOutcome(h: Hasher, revs: Store, o: RunnerSet, api: Api, r: ControllerRevision)
    requires Keyed(revs) && !HasUncontrolled(revs, o) && Decide(h, revs, o) == Reuse(r)
    ensures
      var res := MakeHistory(h, revs, o, api);
      && res.revs == revs
      && res.outcome == if o.status.current == "" || CurrentListed(revs, o) then Made(r) else NilCurrent
  {
    hide Decide, HasUncontrolled, CurrentListed;
  }

  /** Rolling back is rejected exactly when its one update fails. A conflict passes for success: the old revision stays
      in the store and the call returns it under the new number. */
  lemma RollbackOutcome(h: Hasher, revs: Store, o: RunnerSet, api: Api, r: ControllerRevision, n: int)
    requires Keyed(revs) && !HasUncontrolled(revs, o) && Decide(h, revs, o) == Rollback(r, n)
    ensures
      var res, renumbered := MakeHistory(h, revs, o, api), r.(number := n);
      && (res.outcome.Rejected? <==> api.replies(0) == Failed)
      && (!res.outcome.Rejected? ==>
            res.outcome == if o.status.current == "" || CurrentListed(revs, o) then Made(renumbered) else NilCurrent)
      && res.revs == (if api.replies(0) == Accepted then revs[r.name := renumbered] else revs)
  {
    DecideFits(h, revs, o);
    assert r.number < n;
    RollbackCarries(revs, o, r, n, api);
    hide Decide, HasUncontrolled, PlanFits, CurrentListed, Carry, Keyed;
  }

  lemma RollbackCarries(revs: Store, o: RunnerSet, r: ControllerRevision, n: int, api: Api)
    requires r.number != n
    ensures
      var res, renumbered := Carry(revs, o, Rollback(r, n), api), r.(number := n);
      match api.replies(0)
      case Accepted => res == Wrote(Write(renumbered, revs[r.name := renumbered]), CollisionCount(o))
      case Conflict => res == Wrote(Write(renumbered, revs), CollisionCount(o))
      case Failed => res == WriteRejected
  {
  }

  /** Creating is decided by the first answer, or under a clash goes on until an answer is not acceptance. */
  lemma CreateOutcome(h: Hasher, revs: Store, o: RunnerSet, api: Api, next: ControllerRevision)
    requires Keyed(revs) && !HasUncontrolled(revs, o) && Decide(h, revs, o) == CreateNew(next)
    ensures
      var out := MakeHistory(h, revs, o, api).outcome;
      if Clashes(revs, next) then
        && (out.Rejected? <==> exists j :: 0 <= j < api.rounds && api.replies(j) != Accepted)
        && (!out.Rejected? ==> out == Colliding(CollisionCount(o) + api.rounds))
      else api.rounds > 0 ==>
        && (out.Rejected? <==> api.replies(0) != Accepted)
        && (!out.Rejected? ==>
              if o.status.current == "" || CurrentListed(revs, o) then out.Made? else out.NilCurrent?)
  {
    CreateLoopOutcome(revs, next, CollisionCount(o), api, 0);
    hide Decide, HasUncontrolled, CreateLoop, Clashes, CurrentListed;
  }

  const FIRST := ControllerRevision("s-A", map[HASH_LABEL := "A"], Some("u"), "A", 1, 0)
  const LATER := ControllerRevision("s-B", map[HASH_LABEL := "B"], Some("u"), "B", 2, 0)

  ghost function DataAsHash(data: string, probe: Option<int>): string { data }

  /** An update is lost: with the template reverted to the first of two revisions and its update in conflict, the call
      returns that revision with the number 3 although the store still has it under 1. */
  lemma LostUpdateHappens(api: Api)
    requires api.replies(0) == Conflict
    ensures
      var revs := map["s-A" := FIRST, "s-B" := LATER];
      var o := RunnerSet("s", "u", map[], Template("A", map[]), 1, false, 1, Status("s-B", "s-B", Some(0), 0, 0, 0));
      Keyed(revs) && MakeHistory(DataAsHash, revs, o, api).outcome == Made(FIRST.(number := 3))
      && MakeHistory(DataAsHash, revs, o, api).revs == revs
  {
    var revs := map["s-A" := FIRST, "s-B" := LATER];
    var o := RunnerSet("s", "u", map[], Template("A", map[]), 1, false, 1, Status("s-B", "s-B", Some(0), 0, 0, 0));
    TwoRevisions(revs, o);
    RevertDecides(DataAsHash, 0, State(revs, o), FIRST);
    DecideFits(DataAsHash, revs, o);
    var plan := Decide(DataAsHash, revs, o);
    assert plan.Rollback? && plan.rev == FIRST && plan.number == 3;
    RollbackOutcome(DataAsHash, revs, o, api, FIRST, 3);
    hide MakeHistory, Decide, Owned, NamedByData;
  }

  lemma TwoRevisions(revs: Store, o: RunnerSet)
    requires revs == map["s-A" := FIRST, "s-B" := LATER] && o.name == "s" && o.uid == "u" && o.selector == map[]
    requires o.status.collision == Some(0) && o.status.current == "s-B"
    ensures Keyed(revs) && Owned(revs, o) == {FIRST, LATER} && !HasUncontrolled(revs, o) && CurrentListed(revs, o)
    ensures NamedByData(DataAsHash, 0, State(revs, o)) && !Greatest(FIRST, {FIRST, LATER})
  {
    assert revs["s-A"] in Owned(revs, o) && revs["s-B"] in Owned(revs, o);
    assert RevisionLess(FIRST, LATER);
    assert Name("s", "A") == "s-A" && Name("s", "B") == "s-B";
  }

  /** A fresh owner's second call dereferences nil exactly when its selector does not match its template's labels:
      the first call's revision is then never listed. */
  lemma MismatchFailsSecondCall(h: Hasher, o: RunnerSet, api: Api, again: Api)
    requires o.status.current == "" && HASH_LABEL !in o.selector && AllAccepted(api) && AllAccepted(again)
    ensures
      var first := MakeHistory(h, map[], o, api);
      && first.outcome.Made? && Keyed(first.revs)
      && (MakeHistory(h, first.revs, first.owner, again).outcome.NilCurrent? <==> !SelectorFits(o))
  {
    FirstStores(h, o, api);
    hide MakeHistory;
    var first := MakeHistory(h, map[], o, api);
    var stored := NextRevision(h, o, 1).(created := api.now);
    var hash := h(o.template.raw, o.status.collision);
    assert stored.labels == o.template.labels[HASH_LABEL := hash];
    assert Matches(o.selector, stored.labels) <==> Matches(o.selector, o.template.labels);
    NoUncontrolled(map[], o, stored);
    assert |stored.name| > 0;
    FailsExactly(h, first.revs, first.owner, again);
    if !SelectorFits(o) {
      assert Owned(first.revs, first.owner) == {};
      DecideFits(h, first.revs, first.owner);
    }
    hide Decide, PlanFits, Owned, NextRevision;
  }

  /** The first call hashes with no probe and then stores a count of 0, so the second hashes with one. A fresh owner
      ends up with two revisions of one template exactly when both hash labels parse as numbers, and as different
      ones. */
  lemma NilProbeDuplicates(h: Hasher, o: RunnerSet, api: Api, again: Api)
    requires o.status.current == "" && o.status.collision.None? && SelectorFits(o)
    requires AllAccepted(api) && AllAccepted(again)
    ensures
      var first := MakeHistory(h, map[], o, api);
      && Keyed(first.revs)
      && var second := MakeHistory(h, first.revs, first.owner, again);
      var a, b := NextRevision(h, o, 0), NextRevision(h, first.owner, 0);
      && first.revs.Keys == {a.name}
      && (HashesClash(a, b) <==> second.revs != first.revs)
      && (HashesClash(a, b) ==>
            && a.name != b.name && second.revs.Keys == {a.name, b.name}
            && second.revs[a.name].raw == second.revs[b.name].raw == o.template.raw)
  {
    hide MakeHistory;
    FirstCall(h, o, api);
    var first := MakeHistory(h, map[], o, api);
    var stored := NextRevision(h, o, 1).(created := api.now);
    if HashesClash(NextRevision(h, o, 0), NextRevision(h, first.owner, 0)) { ClashingNames(h, o, first.owner); }
    assert HashOf(stored) == HashOf(NextRevision(h, o, 0));
    SecondCall(h, first.revs, first.owner, stored, again);
  }

  ghost function TwoLabels(data: string, probe: Option<int>): string { if probe.None? then "4" else "5" }

  /** It does happen: with these labels a fresh owner stores its template twice. */
  lemma NilProbeDuplicatesHappen(api: Api, again: Api)
    requires AllAccepted(api) && AllAccepted(again)
    ensures
      var o := RunnerSet("set", "uid", map[], Template("data", map[]), 1, false, 1, Status("", "", None, 0, 0, 0));
      var first := MakeHistory(TwoLabels, map[], o, api);
      && Keyed(first.revs)
      && var second := MakeHistory(TwoLabels, first.revs, first.owner, again);
      && first.revs.Keys == {"set-4"} && second.revs.Keys == {"set-4", "set-5"}
      && second.revs["set-4"].raw == second.revs["set-5"].raw == "data"
  {
    hide MakeHistory;
    var o := RunnerSet("set", "uid", map[], Template("data", map[]), 1, false, 1, Status("", "", None, 0, 0, 0));
    FirstCall(TwoLabels, o, api);
    NilProbeDuplicates(TwoLabels, o, api, again);
    var o' := MakeHistory(TwoLabels, map[], o, api).owner;
    TwoLabelsClash(o, o');
  }

  lemma TwoLabelsClash(o: RunnerSet, o': RunnerSet)
    requires o.name == o'.name == "set" && o.status.collision.None? && o'.status.collision.Some?
    ensures var a, b := NextRevision(TwoLabels, o, 0), NextRevision(TwoLabels, o', 0);
      HashesClash(a, b) && a.name == "set-4" && b.name == "set-5"
  {
    assert "4"[..0] == [] && "5"[..0] == [];
    assert DigitsValue("4") == 4 && DigitsValue("5") == 5;
    assert Name("set", "4") == "set-4" && Name("set", "5") == "set-5";
  }

  lemma ClashingNames(h: Hasher, o: RunnerSet, o': RunnerSet)
    requires o.name == o'.name && HashesClash(NextRevision(h, o, 0), NextRevision(h, o', 0))
    ensures NextRevision(h, o, 0).name != NextRevision(h, o', 0).name
  {
    NameInjective(o.name, h(o.template.raw, o.status.collision), h(o'.template.raw, o'.status.collision));
  }

  lemma FirstCall(h: Hasher, o: RunnerSet, api: Api)
    requires o.status.current == "" && SelectorFits(o) && AllAccepted(api)
    ensures
      var res, stored := MakeHistory(h, map[], o, api), NextRevision(h, o, 1).(created := api.now);
      && res.outcome.Made? && res.revs == map[stored.name := stored]
      && res.owner.(status := o.status) == o && res.owner.status.collision == Some(CollisionCount(o))
      && CurrentListed(res.revs, res.owner)
      && Owned(res.revs, res.owner) == {stored} && !HasUncontrolled(res.revs, res.owner)
  {
    FirstStores(h, o, api);
    hide MakeHistory;
    NextListed(h, o, 1, api.now);
    assert |NextRevision(h, o, 1).name| > 0;
  }

  lemma FirstStores(h: Hasher, o: RunnerSet, api: Api)
    requires o.status.current == "" && AllAccepted(api)
    ensures
      var res, stored := MakeHistory(h, map[], o, api), NextRevision(h, o, 1).(created := api.now);
      && res.outcome.Made? && res.revs == map[stored.name := stored]
      && res.owner == o.(status :=
           o.status.(current := stored.name, next := stored.name, collision := Some(CollisionCount(o))))
  {
    assert Owned(map[], o) == {};
    assert Ascending({}) == [];
    assert EqualsOf([], NextRevision(h, o, 1)) == [];
    var next := NextRevision(h, o, 1);
    assert Decide(h, map[], o) == CreateNew(next);
    CreateLoopEnds(map[], next, CollisionCount(o), api, 0);
    CreateLoopStored(map[], next, CollisionCount(o), api);
    hide Decide, Owned, CreateLoop, NextRevision;
  }

  lemma SecondCall(h: Hasher, revs: Store, o: RunnerSet, r: ControllerRevision, api: Api)
    requires Keyed(revs) && revs == map[r.name := r] && Owned(revs, o) == {r} && r.raw == o.template.raw
    requires !HasUncontrolled(revs, o) && CurrentListed(revs, o) && AllAccepted(api)
    requires HashesClash(r, NextRevision(h, o, 0)) ==> NextRevision(h, o, 0).name != r.name
    ensures
      var res, next := MakeHistory(h, revs, o, api), NextRevision(h, o, 0);
      && (HashesClash(r, next) <==> res.revs != revs)
      && (HashesClash(r, next) ==>
            && res.revs.Keys == {r.name, next.name} && next.name != r.name
            && res.revs[r.name].raw == res.revs[next.name].raw == o.template.raw)
  {
    var next := NextRevision(h, o, 0);
    if HashesClash(r, next) {
      SecondCreates(h, revs, o, r, api);
      hide MakeHistory, HashesClash, NextRevision;
      var after := MakeHistory(h, revs, o, api).revs;
      assert after.Keys == {r.name, next.name} && after[r.name] == r;
    } else {
      SecondReuses(h, revs, o, r, api);
    }
  }

  lemma SecondReuses(h: Hasher, revs: Store, o: RunnerSet, r: ControllerRevision, api: Api)
    requires Keyed(revs) && Owned(revs, o) == {r} && IsEqual(r, NextRevision(h, o, 0))
    ensures MakeHistory(h, revs, o, api).revs == revs
  {
    RevisionLessStrict(r, r, r);
    ReuseGreatest(h, revs, o, r);
    hide Decide, HasUncontrolled;
  }

  lemma SecondCreates(h: Hasher, revs: Store, o: RunnerSet, r: ControllerRevision, api: Api)
    requires Keyed(revs) && Owned(revs, o) == {r} && !IsEqual(r, NextRevision(h, o, 0))
    requires NextRevision(h, o, 0).name !in revs
    requires !HasUncontrolled(revs, o) && AllAccepted(api)
    ensures var after, name := MakeHistory(h, revs, o, api).revs, NextRevision(h, o, 0).name;
      name in after && after == revs[name := after[name]] && after[name].raw == o.template.raw
  {
    SecondIsNew(h, revs, o, r);
    DecideFits(h, revs, o);
    var next := Decide(h, revs, o).next;
    CreateLoopEnds(revs, next, CollisionCount(o), api, 0);
    assert next.name == NextRevision(h, o, 0).name && next.raw == o.template.raw;
    hide Decide, HasUncontrolled, PlanFits, NextRevision, CreateLoop;
  }

  lemma SecondIsNew(h: Hasher, revs: Store, o: RunnerSet, r: ControllerRevision)
    requires Keyed(revs) && Owned(revs, o) == {r} && !IsEqual(r, NextRevision(h, o, 0))
    ensures Decide(h, revs, o).CreateNew?
  {
    var list := Ascending({r});
    var next := NextRevision(h, o, NextNumber(list));
    NoEquals(list, next);
  }

  lemma {:induction false} NoEquals(s: seq<ControllerRevision>, needle: ControllerRevision)
    requires forall x :: x in s ==> !IsEqual(x, needle)
    ensures EqualsOf(s, needle) == []
  {
    if s != [] {
      assert s == s[..|s| - 1] + [s[|s| - 1]];
      NoEquals(s[..|s| - 1], needle);
    }
  }

  /* ---- runs of template edits and calls ---- */

  datatype State = State(revs: Store, owner: RunnerSet)

  /** A user edits the template, a reconcile calls MakeHistory (with any API behaviour), or revisions are deleted. */
  datatype Action = Edit(template: Template) | Call(api: Api) | Drop(names: set<string>)

  ghost function Do(h: Hasher, s: State, a: Action): State
    requires Keyed(s.revs)
  {
    match a
    case Edit(t) => s.(owner := s.owner.(template := t))
    case Call(api) => var res := MakeHistory(h, s.revs, s.owner, api); State(res.revs, res.owner)
    case Drop(names) => s.(revs := s.revs - names)
  }

  ghost function Run(h: Hasher, s: State, actions: seq<Action>): (end: State)
    requires Keyed(s.revs)
    ensures Keyed(end.revs)
    decreases |actions|
  {
    if actions == [] then s
    else
      StaysKeyed(h, s, actions[0]);
      Run(h, Do(h, s, actions[0]), actions[1..])
  }

  lemma StaysKeyed(h: Hasher, s: State, a: Action)
    requires Keyed(s.revs)
    ensures Keyed(Do(h, s, a).revs)
  {
    if a.Call? {
      CallWrites(h, s.revs, s.owner, a.api);
      WritesStayKeyed(h, s.revs, s.owner, MakeHistory(h, s.revs, s.owner, a.api).revs, a.api.now);
      hide MakeHistory, WritesOne, Keyed;
    }
  }

  lemma WritesStayKeyed(h: Hasher, revs: Store, o: RunnerSet, after: Store, now: int)
    requires Keyed(revs) && WritesOne(h, revs, o, after, now)
    ensures Keyed(after)
  {
    hide IsEqual, NextRevision;
  }

  ghost predicate Renumbers(revs: Store, o: RunnerSet, after: Store, r: ControllerRevision, n: int) {
    r in Owned(revs, o) && Follows(n, Owned(revs, o)) && after == revs[r.name := r.(number := n)]
  }

  ghost predicate Creates(h: Hasher, revs: Store, o: RunnerSet, after: Store, next: ControllerRevision, now: int) {
    && next == NextRevision(h, o, next.number) && next.name !in revs
    && (forall x :: x in Owned(revs, o) ==> !IsEqual(x, next)) && Follows(next.number, Owned(revs, o))
    && after == revs[next.name := next.(created := now)]
  }

  /** At most one revision is written. */
  ghost predicate WritesOne(h: Hasher, revs: Store, o: RunnerSet, after: Store, now: int) {
    || after == revs
    || (exists r, n :: Renumbers(revs, o, after, r, n))
    || (exists next :: Creates(h, revs, o, after, next, now))
  }

  lemma UnmadeKeepsOwner(h: Hasher, revs: Store, o: RunnerSet, api: Api)
    requires Keyed(revs) && !MakeHistory(h, revs, o, api).outcome.Made?
    ensures MakeHistory(h, revs, o, api).owner == o
  {
    hide Carry, Decide, HasUncontrolled;
  }

  lemma CallKeepsOwner(h: Hasher, revs: Store, o: RunnerSet, api: Api)
    requires Keyed(revs)
    ensures
      var res := MakeHistory(h, revs, o, api);
      && res.owner.(status := o.status) == o
      && (o.status.collision.Some? ==> res.owner.status.collision == o.status.collision)
  {
    if MakeHistory(h, revs, o, api).outcome.Made? {
      MadeIsCarried(h, revs, o, api);
      DecideFits(h, revs, o);
      PlanWrites(h, revs, o, Decide(h, revs, o), api);
    } else {
      UnmadeKeepsOwner(h, revs, o, api);
    }
    hide MakeHistory, Carry, Decide, PlanFits, WritesOne, HasUncontrolled, Keyed;
  }

  lemma CallWritesOne(h: Hasher, revs: Store, o: RunnerSet, api: Api)
    requires Keyed(revs)
    ensures WritesOne(h, revs, o, MakeHistory(h, revs, o, api).revs, api.now)
  {
    DecideFits(h, revs, o);
    PlanWrites(h, revs, o, Decide(h, revs, o), api);
    assert WritesOne(h, revs, o, revs, api.now);
    hide Carry, Decide, PlanFits, WritesOne, HasUncontrolled, Keyed;
  }

  /** Whatever its outcome, a call writes at most one revision: a listed one renumbered, or the template's own under a
      free name if no listed one is equal to it. Of the owner it changes only the status, never an existing collision
      count. */
  lemma CallWrites(h: Hasher, revs: Store, o: RunnerSet, api: Api)
    requires Keyed(revs)
    ensures
      var res := MakeHistory(h, revs, o, api);
      && WritesOne(h, revs, o, res.revs, api.now)
      && res.owner.(status := o.status) == o
      && (o.status.collision.Some? ==> res.owner.status.collision == o.status.collision)
  {
    CallWritesOne(h, revs, o, api);
    CallKeepsOwner(h, revs, o, api);
    hide MakeHistory, WritesOne;
  }

  /** What is in a revision a call has stored, and what changes in one it renumbers: everything the template and the
      owner give, under the next number. */
  lemma WrittenRevision(h: Hasher, revs: Store, o: RunnerSet, api: Api, n: string)
    requires Keyed(revs) && n in MakeHistory(h, revs, o, api).revs
    ensures
      var r := MakeHistory(h, revs, o, api).revs[n];
      var hash := h(o.template.raw, o.status.collision);
      && (n !in revs ==>
            && r == ControllerRevision(
                      n, o.template.labels[HASH_LABEL := hash], Some(o.uid), o.template.raw, r.number, api.now)
            && n == Name(o.name, hash) && Follows(r.number, Owned(revs, o)))
      && (n in revs && r != revs[n] ==>
            revs[n] in Owned(revs, o) && r == revs[n].(number := r.number) && Follows(r.number, Owned(revs, o)))
  {
    CallWritesOne(h, revs, o, api);
    var after := MakeHistory(h, revs, o, api).revs;
    hide MakeHistory, Follows, Owned, IsEqual;
    if r, m :| Renumbers(revs, o, after, r, m) {
      OwnedIsStored(revs, o, r);
    }
  }

  lemma OwnedIsStored(revs: Store, o: RunnerSet, r: ControllerRevision)
    requires Keyed(revs) && r in Owned(revs, o)
    ensures r.name in revs && revs[r.name] == r
  {
  }

  lemma PlanWrites(h: Hasher, revs: Store, o: RunnerSet, plan: Plan, api: Api)
    requires Keyed(revs) && PlanFits(h, revs, o, plan)
    ensures
      var res := Carry(revs, o, plan, api);
      res.Wrote? ==> res.count == CollisionCount(o) && WritesOne(h, revs, o, res.write.revs, api.now)
  {
    var res := Carry(revs, o, plan, api);
    match plan {
      case Reuse(r) =>
      case Rollback(r, n) =>
        assert r.number != n;
        assert api.replies(0) == Accepted ==> Renumbers(revs, o, res.write.revs, r, n);
      case CreateNew(next) =>
        if res.Wrote? {
          CreateLoopStored(revs, next, CollisionCount(o), api);
          if next.name in revs {
            assert revs == revs[next.name := revs[next.name]];
          } else {
            assert Creates(h, revs, o, res.write.revs, next, api.now);
          }
        }
    }
  }

  lemma LeavesControlled(h: Hasher, revs: Store, o: RunnerSet, api: Api)
    requires Keyed(revs) && MakeHistory(h, revs, o, api).outcome.Made?
    ensures var res := MakeHistory(h, revs, o, api); !HasUncontrolled(res.revs, res.owner)
  {
    CallWrites(h, revs, o, api);
    WritesLeaveControlled(h, revs, o, api, MakeHistory(h, revs, o, api).revs);
  }

  lemma WritesLeaveControlled(h: Hasher, revs: Store, o: RunnerSet, api: Api, after: Store)
    requires !HasUncontrolled(revs, o)
    requires WritesOne(h, revs, o, after, api.now)
    ensures !HasUncontrolled(after, o)
  {
  }

  /** Named and labelled by the hash of its data under this probe. */
  ghost predicate NamedUnder(h: Hasher, probe: Option<int>, r: ControllerRevision, o: RunnerSet) {
    var hash := h(r.raw, probe);
    r.name == Name(o.name, hash) && HASH_LABEL in r.labels && r.labels[HASH_LABEL] == hash
  }

  predicate Controls(s: State, n: string) {
    n in s.revs && s.revs[n].controller == Some(s.owner.uid)
  }

  /** A first revision, named before there was a count: it is listed, its label does not clash with the one its data
      would get now, and nothing else has its data. */
  ghost predicate FirstNamed(h: Hasher, c: int, s: State, n: string)
    requires Controls(s, n)
  {
    var r := s.revs[n];
    && NamedUnder(h, None, r, s.owner) && Listed(r, s.owner) && !LabelsClash(h(r.raw, None), h(r.raw, Some(c)))
    && forall m :: Controls(s, m) && s.revs[m].raw == r.raw ==> m == n
  }

  /** Every revision the owner controls is named by its data under the stored count, or was there before the count. */
  ghost predicate NamedByData(h: Hasher, c: int, s: State) {
    && s.owner.status.collision == Some(c)
    && forall n :: Controls(s, n) ==> NamedUnder(h, Some(c), s.revs[n], s.owner) || FirstNamed(h, c, s, n)
  }

  lemma DoKeepsNames(h: Hasher, c: int, s: State, a: Action)
    requires Keyed(s.revs) && NamedByData(h, c, s)
    ensures NamedByData(h, c, Do(h, s, a))
    ensures Do(h, s, a).owner.(template := s.owner.template, status := s.owner.status) == s.owner
  {
    if a.Call? {
      CallWrites(h, s.revs, s.owner, a.api);
      var res := MakeHistory(h, s.revs, s.owner, a.api);
      hide MakeHistory, WritesOne;
      WriteKeepsNames(h, c, s, res.revs, a.api.now);
    }
  }

  lemma WriteKeepsNames(h: Hasher, c: int, s: State, after: Store, now: int)
    requires Keyed(s.revs) && NamedByData(h, c, s) && WritesOne(h, s.revs, s.owner, after, now)
    ensures NamedByData(h, c, s.(revs := after))
  {
    if r, n :| Renumbers(s.revs, s.owner, after, r, n) {
      RenumberKeepsNames(h, c, s, r, n);
    } else if next :| Creates(h, s.revs, s.owner, after, next, now) {
      CreateKeepsNames(h, c, s, after, next, now);
    }
  }

  lemma RenumberKeepsNames(h: Hasher, c: int, s: State, r: ControllerRevision, number: int)
    requires Keyed(s.revs) && NamedByData(h, c, s) && r in Owned(s.revs, s.owner)
    ensures NamedByData(h, c, s.(revs := s.revs[r.name := r.(number := number)]))
  {
    var t := s.(revs := s.revs[r.name := r.(number := number)]);
    assert forall n :: Controls(t, n) <==> Controls(s, n);
    assert forall n :: Controls(t, n) ==> t.revs[n].(number := s.revs[n].number) == s.revs[n];
    forall n | Controls(t, n) ensures NamedUnder(h, Some(c), t.revs[n], t.owner) || FirstNamed(h, c, t, n) {
      assert NamedUnder(h, Some(c), s.revs[n], s.owner) || FirstNamed(h, c, s, n);
    }
  }

  lemma CreateKeepsNames(h: Hasher, c: int, s: State, after: Store, next: ControllerRevision, now: int)
    requires Keyed(s.revs) && NamedByData(h, c, s) && Creates(h, s.revs, s.owner, after, next, now)
    ensures NamedByData(h, c, s.(revs := after))
  {
    var t := s.(revs := after);
    assert NamedUnder(h, Some(c), after[next.name], s.owner);
    forall n | Controls(t, n) ensures NamedUnder(h, Some(c), t.revs[n], t.owner) || FirstNamed(h, c, t, n) {
      if n != next.name && FirstNamed(h, c, s, n) {
        assert s.revs[n] in Owned(s.revs, s.owner) && !IsEqual(s.revs[n], next);
        FirstIsEqual(h, c, s, n, next);
      }
    }
  }

  /** A first revision is found by the template that has its data. */
  lemma FirstIsEqual(h: Hasher, c: int, s: State, n: string, next: ControllerRevision)
    requires s.owner.status.collision == Some(c) && Controls(s, n) && FirstNamed(h, c, s, n)
    requires next == NextRevision(h, s.owner, next.number)
    ensures s.revs[n].raw == next.raw ==> IsEqual(s.revs[n], next)
  {
  }

  ghost predicate UniqueData(s: State) {
    forall m, n :: Controls(s, m) && Controls(s, n) && s.revs[m].raw == s.revs[n].raw ==> m == n
  }

  lemma NamesAreUnique(h: Hasher, c: int, s: State)
    requires Keyed(s.revs) && NamedByData(h, c, s)
    ensures UniqueData(s)
  {
  }

  /** Over any run, the owner never controls two stored revisions with the same template data, whatever the API
      answers, whether or not the labels match the selector, and even if hashes of different data collide. */
  lemma {:induction false} UniqueDataOnRuns(h: Hasher, c: int, s: State, actions: seq<Action>)
    requires Keyed(s.revs) && NamedByData(h, c, s)
    ensures var end := Run(h, s, actions); NamedByData(h, c, end) && UniqueData(end)
    decreases |actions|
  {
    if actions == [] {
      NamesAreUnique(h, c, s);
    } else {
      StaysKeyed(h, s, actions[0]);
      DoKeepsNames(h, c, s, actions[0]);
      UniqueDataOnRuns(h, c, Do(h, s, actions[0]), actions[1..]);
    }
  }

  /* ---- runs from creation ---- */

  /** A RunnerSet nothing has been recorded for yet, and nothing in the store is its own. */
  ghost predicate Fresh(s: State) {
    && s.owner.status.current == "" && s.owner.status.collision.None?
    && forall n :: !Controls(s, n)
  }

  predicate Fits(a: Action, o: RunnerSet) {
    a.Edit? ==> Matches(o.selector, a.template.labels)
  }

  /** The first label a template would get does not clash with its later one. */
  ghost predicate LabelsAgree(h: Hasher) {
    forall x :: !LabelsClash(h(x, None), h(x, Some(0)))
  }

  ghost predicate FromCreation(h: Hasher, s: State) {
    Keyed(s.revs) && SelectorFits(s.owner) && (Fresh(s) || NamedByData(h, 0, s))
  }

  lemma DoFromCreation(h: Hasher, s: State, a: Action)
    requires FromCreation(h, s) && Fits(a, s.owner) && LabelsAgree(h)
    ensures FromCreation(h, Do(h, s, a))
    ensures Do(h, s, a).owner.selector == s.owner.selector
  {
    StaysKeyed(h, s, a);
    if a.Call? { CallWrites(h, s.revs, s.owner, a.api); }
    hide MakeHistory, WritesOne, NamedByData;
    if !Fresh(s) {
      DoKeepsNames(h, 0, s, a);
    } else if a.Call? {
      FirstCallNames(h, s, a.api);
    } else {
      assert forall n :: Controls(Do(h, s, a), n) ==> Controls(s, n);
    }
  }

  lemma FirstCallNames(h: Hasher, s: State, api: Api)
    requires Keyed(s.revs) && Fresh(s) && SelectorFits(s.owner) && LabelsAgree(h)
    ensures var t := Do(h, s, Call(api)); Fresh(t) || NamedByData(h, 0, t)
  {
    var res := MakeHistory(h, s.revs, s.owner, api);
    if res.outcome.Made? {
      MadeIsCarried(h, s.revs, s.owner, api);
      DecideFits(h, s.revs, s.owner);
      FreshOwnsNothing(s);
      var plan := Decide(h, s.revs, s.owner);
      hide MakeHistory, Decide;
      CreateLoopStored(s.revs, plan.next, CollisionCount(s.owner), api);
      FirstWriteNames(h, s, res.revs, res.owner, plan.next, api.now);
    } else {
      UnmadeStaysFresh(h, s, api);
    }
  }

  lemma FreshOwnsNothing(s: State)
    requires Fresh(s)
    ensures Owned(s.revs, s.owner) == {}
  {
    assert forall n :: n in s.revs && Listed(s.revs[n], s.owner) ==> Controls(s, n);
  }

  lemma UnmadeStaysFresh(h: Hasher, s: State, api: Api)
    requires Keyed(s.revs) && Fresh(s) && !MakeHistory(h, s.revs, s.owner, api).outcome.Made?
    ensures Do(h, s, Call(api)) == s
  {
    DecideFits(h, s.revs, s.owner);
    FreshOwnsNothing(s);
    hide Decide, Owned, HasUncontrolled;
  }

  lemma FirstWriteNames(h: Hasher, s: State, after: Store, o: RunnerSet, next: ControllerRevision, now: int)
    requires Keyed(s.revs) && Fresh(s) && SelectorFits(s.owner) && LabelsAgree(h)
    requires next == NextRevision(h, s.owner, next.number) && o.status.collision == Some(0)
    requires o.(status := s.owner.status) == s.owner
    requires if next.name in s.revs then after == s.revs else after == s.revs[next.name := next.(created := now)]
    ensures NamedByData(h, 0, State(after, o))
  {
    var t := State(after, o);
    NextListed(h, s.owner, next.number, now);
    forall n | Controls(t, n) ensures FirstNamed(h, 0, t, n) {
      assert !Controls(s, n);
      assert n == next.name && after[n] == next.(created := now);
      assert forall m :: Controls(t, m) ==> !Controls(s, m);
    }
  }

  lemma {:induction false} UniqueFromCreation(h: Hasher, s: State, actions: seq<Action>)
    requires FromCreation(h, s) && LabelsAgree(h)
    requires forall i :: 0 <= i < |actions| ==> Fits(actions[i], s.owner)
    ensures var end := Run(h, s, actions); FromCreation(h, end) && UniqueData(end)
    decreases |actions|
  {
    if actions == [] {
      if !Fresh(s) { NamesAreUnique(h, 0, s); }
    } else {
      StaysKeyed(h, s, actions[0]);
      DoFromCreation(h, s, actions[0]);
      UniqueFromCreation(h, Do(h, s, actions[0]), actions[1..]);
    }
  }

  /** A RunnerSet that starts out fresh on an empty store, and is only ever edited to templates its selector matches,
      never comes to control two stored revisions with the same data, on any run, exactly when no template's label
      under no count clashes with its label under the count 0. */
  lemma UniqueFromCreationExactly(h: Hasher, o: RunnerSet)
    requires o.status.current == "" && o.status.collision.None? && SelectorFits(o)
    ensures LabelsAgree(h) <==>
      forall actions: seq<Action> :: (forall a :: a in actions ==> Fits(a, o)) ==>
        UniqueData(Run(h, State(map[], o), actions))
  {
    var s := State(map[], o);
    if LabelsAgree(h) {
      forall actions: seq<Action> | forall a :: a in actions ==> Fits(a, o) ensures UniqueData(Run(h, s, actions)) {
        UniqueFromCreation(h, s, actions);
      }
    } else {
      var x :| LabelsClash(h(x, None), h(x, Some(0)));
      var actions := TwoCalls(x, o);
      assert forall a :: a in actions ==> Fits(a, o);
      TwoCallsDuplicate(h, o, x);
    }
  }

  ghost function TwoCalls(x: string, o: RunnerSet): seq<Action> {
    var api := Api(0, i => Accepted, 1);
    [Edit(Template(x, o.selector)), Call(api), Call(api)]
  }

  lemma TwoCallsDuplicate(h: Hasher, o: RunnerSet, x: string)
    requires o.status.current == "" && o.status.collision.None? && HASH_LABEL !in o.selector
    requires LabelsClash(h(x, None), h(x, Some(0)))
    ensures !UniqueData(Run(h, State(map[], o), TwoCalls(x, o)))
  {
    var api := Api(0, i => Accepted, 1);
    var o1 := o.(template := Template(x, o.selector));
    FirstCall(h, o1, api);
    NilProbeDuplicates(h, o1, api, api);
    ThreeSteps(h, State(map[], o), Edit(o1.template), Call(api), Call(api));
    hide MakeHistory;
    var first := MakeHistory(h, map[], o1, api);
    var a, b := NextRevision(h, o1, 0), NextRevision(h, first.owner, 0);
    assert HashesClash(a, b);
    var second := MakeHistory(h, first.revs, first.owner, api);
    SecondControls(h, first.revs, first.owner, api, NextRevision(h, o1, 1).(created := api.now));
    assert Controls(State(second.revs, second.owner), a.name) && Controls(State(second.revs, second.owner), b.name);
  }

  lemma ThreeSteps(h: Hasher, s: State, a: Action, b: Action, c: Action)
    requires Keyed(s.revs)
    ensures
      var t := Do(h, s, a);
      && Keyed(t.revs) && var u := Do(h, t, b);
      && Keyed(u.revs) && Run(h, s, [a, b, c]) == Do(h, u, c)
  {
    var t := Do(h, s, a);
    StaysKeyed(h, s, a);
    var u := Do(h, t, b);
    StaysKeyed(h, t, b);
    StaysKeyed(h, u, c);
    assert [a, b, c][1..] == [b, c] && [b, c][1..] == [c] && [c][1..] == [];
    hide Do;
    assert Run(h, u, [c]) == Run(h, Do(h, u, c), []);
    assert Run(h, t, [b, c]) == Run(h, u, [c]);
  }

  /** A call on a store whose revisions all are the owner's leaves only such. */
  lemma SecondControls(h: Hasher, revs: Store, o: RunnerSet, api: Api, r: ControllerRevision)
    requires Keyed(revs) && revs == map[r.name := r] && r.controller == Some(o.uid)
    ensures var res := MakeHistory(h, revs, o, api);
      forall n :: n in res.revs ==> Controls(State(res.revs, res.owner), n)
  {
    CallWrites(h, revs, o, api);
    hide MakeHistory, WritesOne;
    OnlyOwnWrites(h, revs, o, MakeHistory(h, revs, o, api).revs, api.now);
  }

  lemma OnlyOwnWrites(h: Hasher, revs: Store, o: RunnerSet, after: Store, now: int)
    requires Keyed(revs) && WritesOne(h, revs, o, after, now)
    requires forall n :: n in revs ==> revs[n].controller == Some(o.uid)
    ensures forall n :: n in after ==> after[n].controller == Some(o.uid)
  {
    hide IsEqual;
  }

  lemma OwnDataIsEqual(h: Hasher, c: int, s: State, r: ControllerRevision, number: int)
    requires Keyed(s.revs) && NamedByData(h, c, s) && r in Owned(s.revs, s.owner) && r.raw == s.owner.template.raw
    ensures IsEqual(r, NextRevision(h, s.owner, number))
  {
    assert Controls(s, r.name) && s.revs[r.name] == r;
    if NamedUnder(h, Some(c), r, s.owner) {
      SameLabelSameHash(r, NextRevision(h, s.owner, number));
    } else {
      FirstIsEqual(h, c, s, r.name, NextRevision(h, s.owner, number));
    }
  }

  lemma RevertDecides(h: Hasher, c: int, s: State, r: ControllerRevision)
    requires Keyed(s.revs) && NamedByData(h, c, s)
    requires r in Owned(s.revs, s.owner) && r.raw == s.owner.template.raw
    ensures
      var plan := Decide(h, s.revs, s.owner);
      !plan.CreateNew? && plan.rev == r && (plan.Reuse? <==> Greatest(r, Owned(s.revs, s.owner)))
  {
    DecideFits(h, s.revs, s.owner);
    NamesAreUnique(h, c, s);
    var plan := Decide(h, s.revs, s.owner);
    forall n ensures IsEqual(r, NextRevision(h, s.owner, n)) { OwnDataIsEqual(h, c, s, r, n); }
    assert Controls(s, r.name) && s.revs[r.name] == r;
    hide NamedByData, Decide, NextRevision;
    if !plan.CreateNew? {
      PlannedData(h, s.revs, s.owner, plan);
      assert Controls(s, plan.rev.name) && s.revs[plan.rev.name] == plan.rev;
    }
  }

  lemma PlannedData(h: Hasher, revs: Store, o: RunnerSet, plan: Plan)
    requires PlanFits(h, revs, o, plan) && !plan.CreateNew?
    ensures plan.rev in Owned(revs, o) && plan.rev.raw == o.template.raw
  {
  }

  /** At the end of any run, a successful call on a template whose revision is stored returns that very revision: as it
      is if it is the greatest, else under a number above all others. */
  lemma RevertTakesStored(h: Hasher, c: int, s: State, actions: seq<Action>, r: ControllerRevision, api: Api)
    requires Keyed(s.revs) && NamedByData(h, c, s)
    requires var end := Run(h, s, actions);
      && r in Owned(end.revs, end.owner) && r.raw == end.owner.template.raw
      && MakeHistory(h, end.revs, end.owner, api).outcome.Made?
    ensures
      var end := Run(h, s, actions);
      var owned, made := Owned(end.revs, end.owner), MakeHistory(h, end.revs, end.owner, api).outcome.rev;
      if Greatest(r, owned) then made == r
      else made == r.(number := made.number) && forall x :: x in owned ==> x.number < made.number
  {
    UniqueDataOnRuns(h, c, s, actions);
    RevertMade(h, c, Run(h, s, actions), r, api);
    hide Run, MakeHistory, NamedByData, Greatest, Owned;
  }

  lemma RevertMade(h: Hasher, c: int, s: State, r: ControllerRevision, api: Api)
    requires Keyed(s.revs) && NamedByData(h, c, s)
    requires r in Owned(s.revs, s.owner) && r.raw == s.owner.template.raw
    requires MakeHistory(h, s.revs, s.owner, api).outcome.Made?
    ensures
      var owned, made := Owned(s.revs, s.owner), MakeHistory(h, s.revs, s.owner, api).outcome.rev;
      if Greatest(r, owned) then made == r
      else made == r.(number := made.number) && forall x :: x in owned ==> x.number < made.number
  {
    RevertDecides(h, c, s, r);
    MadeIsCarried(h, s.revs, s.owner, api);
    DecideFits(h, s.revs, s.owner);
    PlanReturns(h, s.revs, s.owner, Decide(h, s.revs, s.owner), api);
    hide MakeHistory, Decide, NamedByData, PlanFits, Carry, Greatest, Owned, Finish, HasUncontrolled;
  }

  lemma PlanReturns(h: Hasher, revs: Store, o: RunnerSet, plan: Plan, api: Api)
    requires PlanFits(h, revs, o, plan) && !plan.CreateNew? && Carry(revs, o, plan, api).Wrote?
    ensures var made := Carry(revs, o, plan, api).write.rev;
      if plan.Reuse? then made == plan.rev
      else made == plan.rev.(number := made.number) && forall x :: x in Owned(revs, o) ==> x.number < made.number
  {
    hide Owned, IsEqual, NextRevision, Greatest;
  }

  /** With hashes that tell the data in `pool` apart and no foreign revision under the owner's names, a call on a
      template from the pool never collides. */
  lemma NoCollisionInPool(h: Hasher, c: int, s: State, pool: set<string>, api: Api)
    requires Keyed(s.revs) && NamedByData(h, c, s) && s.owner.template.raw in pool
    requires forall x, y :: x in pool && y in pool && h(x, Some(c)) == h(y, Some(c)) ==> x == y
    requires forall n :: Controls(s, n) ==> s.revs[n].raw in pool
    requires forall n :: Controls(s, n) && NamedUnder(h, None, s.revs[n], s.owner) ==>
      h(s.revs[n].raw, None) == h(s.owner.template.raw, Some(c)) ==> s.revs[n].raw == s.owner.template.raw
    requires var name := NextRevision(h, s.owner, 0).name; name in s.revs ==> Controls(s, name)
    ensures !MakeHistory(h, s.revs, s.owner, api).outcome.Colliding? || api.rounds == 0
  {
    var next := NextRevision(h, s.owner, 0);
    if next.name in s.revs {
      var raw := s.revs[next.name].raw;
      NameInjective(s.owner.name, h(raw, Some(c)), h(s.owner.template.raw, Some(c)));
      NameInjective(s.owner.name, h(raw, None), h(s.owner.template.raw, Some(c)));
    }
    if api.rounds > 0 { UnclashedNeverCollides(h, s.revs, s.owner, api); }
    hide MakeHistory;
  }

  lemma UnclashedNeverCollides(h: Hasher, revs: Store, o: RunnerSet, api: Api)
    requires Keyed(revs) && !Clashes(revs, NextRevision(h, o, 0)) && api.rounds > 0
    ensures !MakeHistory(h, revs, o, api).outcome.Colliding?
  {
    DecideFits(h, revs, o);
    var plan := Decide(h, revs, o);
    assert plan.CreateNew? ==> !Clashes(revs, plan.next);
    hide Decide, NextRevision, Owned, HasUncontrolled, PlanFits;
    UnclashedCarries(revs, o, plan, api);
    hide Carry, Clashes, Keyed;
  }

  lemma UnclashedCarries(revs: Store, o: RunnerSet, plan: Plan, api: Api)
    requires plan.CreateNew? ==> !Clashes(revs, plan.next) && api.rounds > 0
    ensures !Carry(revs, o, plan, api).WriteColliding?
  {
  }
}
