/** The revision history engine (pkg/revision/revision.go) as functions of the stored revisions and the owner,
    with what each call returns and stores. The reconciler's methods are proved against these functions. */
module History {
  import opened Strings
  import opened Revisions

  type Store = map<string, ControllerRevision>

  /** `raw` is the encoded template (what ObjectPatch produces), `labels` the template's labels. */
  datatype Template = Template(raw: string, labels: Labels)

  datatype Status = Status(
    current: string, next: string, collision: Option<int>, runners: nat, idle: nat, active: nat)

  datatype RunnerSet = RunnerSet(
    name: string, uid: string, selector: Labels, template: Template,
    desired: int, rolling: bool, limit: int, status: Status)

  /** The API server's answer to one write. */
  datatype Reply = Accepted | Conflict | Failed

  /** `now` is the creation timestamp the server would give, `replies(i)` answers the i-th write of a call, and
      `rounds` bounds how many iterations of the create loop are observed. */
  datatype Api = Api(now: int, replies: nat -> Reply, rounds: nat)

  datatype Outcome =
    | Made(rev: ControllerRevision)
    | NilController        // ListRevision reads the UID of a missing controller reference
    | NilCurrent           // the current revision's name is not in the list
    | Rejected             // an API error is returned
    | Colliding(count: int) // the create loop is still running

  datatype Result = Result(outcome: Outcome, revs: Store, owner: RunnerSet)

  predicate Matches(selector: Labels, labels: Labels) {
    forall k :: k in selector ==> k in labels && labels[k] == selector[k]
  }

  predicate Listed(r: ControllerRevision, o: RunnerSet) {
    Matches(o.selector, r.labels) && r.controller == Some(o.uid)
  }

  /** Every selector entry is among the labels, key and value. */
  lemma MatchesItems(selector: Labels, labels: Labels)
    ensures Matches(selector, labels) <==> selector.Items <= labels.Items
  {
    if Matches(selector, labels) {
      forall kv | kv in selector.Items ensures kv in labels.Items { assert kv.0 in labels && labels[kv.0] == kv.1; }
    }
    if selector.Items <= labels.Items {
      forall k | k in selector ensures k in labels && labels[k] == selector[k] {
        assert (k, selector[k]) in selector.Items;
      }
    }
  }

  ghost predicate Keyed(revs: Store) {
    forall n :: n in revs ==> revs[n].name == n
  }

  /** What ListRevision returns, as a set. */
  ghost function Owned(revs: Store, o: RunnerSet): (owned: set<ControllerRevision>)
    ensures Keyed(revs) ==> NamesApart(owned)
  {
    set n | n in revs && Listed(revs[n], o) :: revs[n]
  }

  ghost predicate HasUncontrolled(revs: Store, o: RunnerSet) {
    exists n :: n in revs && Matches(o.selector, revs[n].labels) && revs[n].controller.None?
  }

  function NextRevision(h: Hasher, o: RunnerSet, number: int): ControllerRevision {
    var hash := h(o.template.raw, o.status.collision);
    ControllerRevision(
      Name(o.name, hash), o.template.labels[HASH_LABEL := hash], Some(o.uid), o.template.raw, number, 0)
  }

  /** GetCollisionCount: a missing count reads as 0. */
  function CollisionCount(o: RunnerSet): int {
    match o.status.collision case None => 0 case Some(c) => c
  }

  /* ---- the three-way decision ---- */

  datatype Plan =
    | Reuse(rev: ControllerRevision)
    | Rollback(rev: ControllerRevision, number: int)
    | CreateNew(next: ControllerRevision)

  function PlanFrom(list: seq<ControllerRevision>, eq: seq<ControllerRevision>, next: ControllerRevision): Plan
    requires |eq| > 0 ==> |list| > 0
  {
    if |eq| > 0 && IsEqual(list[|list| - 1], eq[|eq| - 1]) then Reuse(list[|list| - 1])
    else if |eq| > 0 then Rollback(eq[|eq| - 1], next.number)
    else CreateNew(next)
  }

  ghost function Decide(h: Hasher, revs: Store, o: RunnerSet): Plan
    requires Keyed(revs)
  {
    var list := Ascending(Owned(revs, o));
    var next := NextRevision(h, o, NextNumber(list));
    PlanFrom(list, EqualsOf(list, next), next)
  }

  /** The next number: one above the highest in use, or 1. */
  ghost predicate Follows(n: int, revs: set<ControllerRevision>) {
    && (forall x :: x in revs ==> x.number < n)
    && (if revs == {} then n == 1 else exists x :: x in revs && n == x.number + 1)
  }

  /** What a plan says about the stored revisions: which is greatest, which is the latest to carry the template's data,
      and that a new number exceeds every stored one. */
  ghost predicate PlanFits(h: Hasher, revs: Store, o: RunnerSet, plan: Plan) {
    match plan
    case Reuse(r) =>
      && Greatest(r, Owned(revs, o)) && r.raw == o.template.raw
      && (exists e :: e in Owned(revs, o) && IsEqual(r, e) && IsEqual(e, NextRevision(h, o, 0)))
    case Rollback(r, n) =>
      && r in Owned(revs, o) && IsEqual(r, NextRevision(h, o, n)) && !Greatest(r, Owned(revs, o))
      && Follows(n, Owned(revs, o))
      && (forall x :: x in Owned(revs, o) && IsEqual(x, NextRevision(h, o, n)) ==> !RevisionLess(r, x))
    case CreateNew(next) =>
      && next == NextRevision(h, o, next.number)
      && Follows(next.number, Owned(revs, o))
      && (forall x :: x in Owned(revs, o) ==> !IsEqual(x, next))
  }

  lemma DecideFits(h: Hasher, revs: Store, o: RunnerSet)
    requires Keyed(revs)
    ensures PlanFits(h, revs, o, Decide(h, revs, o))
  {
    var owned := Owned(revs, o);
    var list := Ascending(owned);
    var next := NextRevision(h, o, NextNumber(list));
    NextNumberFollows(list, owned);
    assert next == NextRevision(h, o, next.number) && next.number == NextNumber(list) && next.raw == o.template.raw;
    SameNextData(h, o, next.number);
    PlanFromFits(h, revs, o, list, next);
    hide Ascending, NextRevision, NextNumber, Owned, PlanFits;
  }

  lemma SameNextData(h: Hasher, o: RunnerSet, number: int)
    ensures forall e :: IsEqual(e, NextRevision(h, o, number)) == IsEqual(e, NextRevision(h, o, 0))
  {
  }

  lemma PlanFromFits(h: Hasher, revs: Store, o: RunnerSet, list: seq<ControllerRevision>, next: ControllerRevision)
    requires Keyed(revs) && Sorted(list) && Lists(list, Owned(revs, o)) && next.raw == o.template.raw
    requires next == NextRevision(h, o, next.number) && Follows(next.number, Owned(revs, o))
    ensures PlanFits(h, revs, o, PlanFrom(list, EqualsOf(list, next), next))
  {
    hide NextRevision, Owned, Sorted, IsEqual, PlanFits, Follows;
    var eq := EqualsOf(list, next);
    if eq == [] {
      NoneFits(h, revs, o, list, next);
    } else {
      var last, e := list[|list| - 1], eq[|eq| - 1];
      assert e in eq && last in list;
      LastIsGreatest(list, Owned(revs, o));
      if IsEqual(last, e) {
        LastFits(h, revs, o, last, e, next);
      } else {
        LatestEqual(list, next);
        EarlierFits(h, revs, o, last, e, next);
      }
    }
  }

  lemma NoneFits(h: Hasher, revs: Store, o: RunnerSet, list: seq<ControllerRevision>, next: ControllerRevision)
    requires forall r :: r in list <==> r in Owned(revs, o)
    requires next == NextRevision(h, o, next.number) && Follows(next.number, Owned(revs, o))
    requires EqualsOf(list, next) == []
    ensures PlanFits(h, revs, o, CreateNew(next))
  {
    hide NextRevision, Owned, IsEqual, Follows;
    assert forall x :: x in Owned(revs, o) ==> x in list && x !in EqualsOf(list, next);
  }

  lemma LastFits(
    h: Hasher, revs: Store, o: RunnerSet, last: ControllerRevision, e: ControllerRevision, next: ControllerRevision)
    requires Greatest(last, Owned(revs, o)) && e in Owned(revs, o) && IsEqual(last, e) && IsEqual(e, next)
    requires next == NextRevision(h, o, next.number) && next.raw == o.template.raw
    ensures PlanFits(h, revs, o, Reuse(last))
  {
    IsEqualChain(last, e, next);
    SameNextData(h, o, next.number);
    hide NextRevision, Owned, IsEqual, Greatest;
  }

  lemma EarlierFits(
    h: Hasher, revs: Store, o: RunnerSet, last: ControllerRevision, e: ControllerRevision, next: ControllerRevision)
    requires Keyed(revs) && Greatest(last, Owned(revs, o)) && e in Owned(revs, o)
    requires !IsEqual(last, e) && IsEqual(e, next)
    requires next == NextRevision(h, o, next.number) && Follows(next.number, Owned(revs, o))
    requires forall x :: x in Owned(revs, o) && IsEqual(x, next) ==> !RevisionLess(e, x)
    ensures PlanFits(h, revs, o, Rollback(e, next.number))
  {
    EqualToItself(e);
    hide NextRevision, IsEqual, Follows;
    if Greatest(e, Owned(revs, o)) { GreatestUnique(e, last, Owned(revs, o)); }
    hide Owned;
  }

  lemma EqualToItself(r: ControllerRevision)
    ensures IsEqual(r, r)
  {
  }

  /** The last of the equal revisions is the greatest of them. */
  lemma LatestEqual(list: seq<ControllerRevision>, needle: ControllerRevision)
    requires Sorted(list) && EqualsOf(list, needle) != []
    ensures var eq := EqualsOf(list, needle);
      forall x :: x in list && IsEqual(x, needle) ==> !RevisionLess(eq[|eq| - 1], x)
  {
    EqualsSorted(list, needle);
    var eq := EqualsOf(list, needle);
    hide EqualsOf, IsEqual;
    forall x | x in eq ensures !RevisionLess(eq[|eq| - 1], x) {
      var i :| 0 <= i < |eq| && eq[i] == x;
      RevisionLessStrict(x, x, x);
    }
  }

  lemma NextNumberFollows(list: seq<ControllerRevision>, owned: set<ControllerRevision>)
    requires Sorted(list) && Lists(list, owned)
    ensures Follows(NextNumber(list), owned)
  {
    if list != [] {
      LastIsGreatest(list, owned);
      assert list[|list| - 1] in owned;
    } else {
      assert forall x :: x in owned ==> x in list;
    }
  }

  /** When the greatest stored revision is itself equal to the template, it is reused. */
  lemma ReuseGreatest(h: Hasher, revs: Store, o: RunnerSet, r: ControllerRevision)
    requires Keyed(revs) && Greatest(r, Owned(revs, o)) && IsEqual(r, NextRevision(h, o, 0))
    ensures Decide(h, revs, o) == Reuse(r)
  {
    var owned := Owned(revs, o);
    var list := Ascending(owned);
    var next := NextRevision(h, o, NextNumber(list));
    var eq := EqualsOf(list, next);
    assert r in list && r in eq;
    var e := eq[|eq| - 1];
    EqualsSorted(list, next);
    LastIsGreatest(list, owned);
    GreatestUnique(r, list[|list| - 1], owned);
    var i :| 0 <= i < |eq| && eq[i] == r;
    assert e in eq && e in owned;
    assert !RevisionLess(e, r) by { RevisionLessStrict(r, r, r); }
    if e != r {
      assert e.name != r.name;
      RevisionLessTotal(e, r);
      RevisionLessStrict(r, e, r);
    }
  }

  /* ---- the writes ---- */

  const BACKOFF_STEPS := 4

  datatype Write = Write(rev: ControllerRevision, revs: Store)

  /** What the conflict-retry loop amounts to: only the first Update is ever sent, because the local number is
      already the new one when a conflict makes the loop come round again. */
  function Bump(revs: Store, r: ControllerRevision, number: int, replies: nat -> Reply): Option<Write> {
    var bumped := r.(number := number);
    if r.number == number then Some(Write(r, revs))
    else match replies(0)
      case Accepted => Some(Write(bumped, revs[r.name := bumped]))
      case Conflict => Some(Write(bumped, revs))
      case Failed => None
  }

  datatype Creation =
    | Stored(rev: ControllerRevision, revs: Store, count: int)
    | CreateRejected
    | StillColliding(count: int)

  /** The create loop from iteration `i` on. The name is never derived again from the bumped count. */
  function CreateLoop(revs: Store, next: ControllerRevision, count: int, api: Api, i: nat): Creation
    decreases api.rounds - i
  {
    if i >= api.rounds then StillColliding(count)
    else if api.replies(i) != Accepted then CreateRejected
    else if next.name !in revs then
      var stored := next.(created := api.now);
      Stored(stored, revs[next.name := stored], count)
    else if revs[next.name].raw == next.raw then Stored(revs[next.name], revs, count)
    else CreateLoop(revs, next, count + 1, api, i + 1)
  }

  predicate CurrentListed(revs: Store, o: RunnerSet) {
    o.status.current in revs && Listed(revs[o.status.current], o)
  }

  /** The owner's pointers are updated last; `listed` is the store the list was taken from. */
  function Finish(listed: Store, o: RunnerSet, w: Write, count: int): Result {
    if o.status.current != "" && !CurrentListed(listed, o) then Result(NilCurrent, w.revs, o)
    else
      var current := if o.status.current == "" then w.rev.name else o.status.current;
      var status := o.status.(current := current, next := w.rev.name, collision := Some(count));
      Result(Made(w.rev), w.revs, o.(status := status))
  }

  datatype Attempt =
    | Wrote(write: Write, count: int)
    | WriteRejected
    | WriteColliding(count: int)

  function Carry(revs: Store, o: RunnerSet, plan: Plan, api: Api): Attempt {
    match plan
    case Reuse(r) => Wrote(Write(r, revs), CollisionCount(o))
    case Rollback(r, n) =>
      (match Bump(revs, r, n, api.replies)
       case None => WriteRejected
       case Some(w) => Wrote(w, CollisionCount(o)))
    case CreateNew(next) =>
      (match CreateLoop(revs, next, CollisionCount(o), api, 0)
       case CreateRejected => WriteRejected
       case StillColliding(c) => WriteColliding(c)
       case Stored(r, revs', c) => Wrote(Write(r, revs'), c))
  }

  ghost function MakeHistory(h: Hasher, revs: Store, o: RunnerSet, api: Api): Result
    requires Keyed(revs)
  {
    if HasUncontrolled(revs, o) then Result(NilController, revs, o)
    else match Carry(revs, o, Decide(h, revs, o), api)
      case WriteRejected => Result(Rejected, revs, o)
      case WriteColliding(c) => Result(Colliding(c), revs, o)
      case Wrote(w, c) => Finish(revs, o, w, c)
  }

  /* ---- the create loop ---- */

  /** Some other data already has this name. */
  predicate Clashes(revs: Store, next: ControllerRevision) {
    next.name in revs && revs[next.name].raw != next.raw
  }

  /** Without a clash the loop ends in its first iteration with the template's data stored under the name; with one,
      no iteration ends it: only the count grows. */
  lemma {:induction false} CreateLoopEnds(revs: Store, next: ControllerRevision, count: int, api: Api, i: nat)
    requires Keyed(revs) && i <= api.rounds && forall k :: api.replies(k) == Accepted
    ensures Clashes(revs, next) ==>
      CreateLoop(revs, next, count, api, i) == StillColliding(count + api.rounds - i)
    ensures !Clashes(revs, next) && i < api.rounds ==>
      var c := CreateLoop(revs, next, count, api, i);
      && c.Stored? && c.count == count && c.rev.raw == next.raw && c.rev.name == next.name
      && c.revs == revs[next.name := c.rev]
    decreases api.rounds - i
  {
    if Clashes(revs, next) && i < api.rounds { CreateLoopEnds(revs, next, count + 1, api, i + 1); }
    if next.name in revs { assert revs == revs[next.name := revs[next.name]]; }
  }

  /** How the loop comes out for any answers: without a clash the first one decides; with one it goes on until a create
      is refused, and never otherwise. */
  lemma {:induction false} CreateLoopOutcome(revs: Store, next: ControllerRevision, count: int, api: Api, i: nat)
    requires i <= api.rounds
    ensures var c := CreateLoop(revs, next, count, api, i);
      if Clashes(revs, next) then
        && (c.CreateRejected? <==> exists j :: i <= j < api.rounds && api.replies(j) != Accepted)
        && (!c.CreateRejected? ==> c == StillColliding(count + api.rounds - i))
      else if i == api.rounds then c == StillColliding(count)
      else (c.CreateRejected? <==> api.replies(i) != Accepted) && (c.Stored? <==> api.replies(i) == Accepted)
    decreases api.rounds - i
  {
    if Clashes(revs, next) && i < api.rounds {
      CreateLoopOutcome(revs, next, count + 1, api, i + 1);
      if j :| i <= j < api.rounds && api.replies(j) != Accepted { assert j == i || j >= i + 1; }
    }
  }

  /** Whatever the server answers, a loop that ends has stored or found the template's data, and has bumped no count. */
  lemma CreateLoopStored(revs: Store, next: ControllerRevision, count: int, api: Api)
    requires Keyed(revs) && CreateLoop(revs, next, count, api, 0).Stored?
    ensures
      var c := CreateLoop(revs, next, count, api, 0);
      && !Clashes(revs, next) && c.count == count && c.rev.raw == next.raw && c.rev.name == next.name
      && c.revs == revs[next.name := c.rev]
      && (next.name !in revs ==> c.rev == next.(created := api.now))
      && (next.name in revs ==> c.rev == revs[next.name])
  {
    if Clashes(revs, next) { ClashNeverStores(revs, next, count, api, 0); }
    if next.name in revs { assert revs == revs[next.name := revs[next.name]]; }
  }

  lemma {:induction false} ClashNeverStores(revs: Store, next: ControllerRevision, count: int, api: Api, i: nat)
    requires Clashes(revs, next)
    ensures !CreateLoop(revs, next, count, api, i).Stored?
    decreases api.rounds - i
  {
    if i < api.rounds { ClashNeverStores(revs, next, count + 1, api, i + 1); }
  }

  /** The scheme the status field documents: derive the name again from every bumped count. Returns the first try
      whose name is free. */
  function FirstFree(h: Hasher, revs: Store, prefix: string, raw: string, count: int, tries: nat): Option<int>
    decreases tries
  {
    if tries == 0 then None
    else if Name(prefix, h(raw, Some(count))) !in revs then Some(count)
    else FirstFree(h, revs, prefix, raw, count + 1, tries - 1)
  }

  /** With names injective in the count it needs at most one try more than there are stored revisions. */
  lemma {:induction false} IntendedSchemeTerminates(h: Hasher, revs: Store, prefix: string, raw: string, count: int)
    requires forall i, j :: h(raw, Some(i)) == h(raw, Some(j)) ==> i == j
    ensures var found := FirstFree(h, revs, prefix, raw, count, |revs| + 1);
      && found.Some? && count <= found.value <= count + |revs|
      && Name(prefix, h(raw, found)) !in revs
  {
    FirstFreeFrom(h, revs, prefix, raw, count, |revs| + 1, {});
  }

  lemma {:induction false} FirstFreeFrom(
    h: Hasher, revs: Store, prefix: string, raw: string, count: int, tries: nat, seen: set<string>)
    requires forall i, j :: h(raw, Some(i)) == h(raw, Some(j)) ==> i == j
    requires seen <= revs.Keys && |seen| + tries == |revs| + 1
    requires forall i :: i >= count ==> Name(prefix, h(raw, Some(i))) !in seen
    ensures var found := FirstFree(h, revs, prefix, raw, count, tries);
      && found.Some? && count <= found.value < count + tries
      && Name(prefix, h(raw, found)) !in revs
    decreases tries
  {
    SubsetSize(seen, revs.Keys);
    var name := Name(prefix, h(raw, Some(count)));
    if name in revs {
      forall i | i >= count + 1 ensures Name(prefix, h(raw, Some(i))) !in seen + {name} {
        NameInjective(prefix, h(raw, Some(i)), h(raw, Some(count)));
      }
      SubsetSize(seen + {name}, revs.Keys);
      FirstFreeFrom(h, revs, prefix, raw, count + 1, tries - 1, seen + {name});
    }
  }

  lemma SubsetSize<T>(a: set<T>, b: set<T>)
    requires a <= b
    ensures |a| <= |b|
  {
    assert b == a + (b - a);
  }
}
