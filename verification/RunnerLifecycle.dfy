/** One Runner's lifecycle and deletion protocol (controllers/runner_controller.go): a reconcile pass as a function of
    the persisted objects and of the answers it gets, and what holds over every run of passes and interference. */
module RunnerLifecycle {
  import opened Strings
  import opened Fleet

  datatype PodPhase = PodUnset | PodPending | PodRunning | PodSucceeded | PodOther

  datatype Pod = Pod(phase: PodPhase, ready: bool)

  /** `expired`: the token expires within five minutes, or its expiry annotation is missing or malformed. */
  datatype Secret = Secret(expired: bool)

  /** The persisted objects. `online` is the Online condition, `evict` the IfNotActive eviction policy. The object is
      `gone` once it is being deleted and its finalizer is off. */
  datatype State = State(
    id: Option<int>, finalizer: bool, terminating: bool, phase: Phase, online: Option<bool>, evict: bool,
    pod: Option<Pod>, secret: Option<Secret>, gone: bool)

  datatype GithubError = Forbidden | NotFound | OtherError

  datatype GithubRunner = Unreachable(error: GithubError) | Known(offline: bool, busy: bool)

  /** Everything a pass is told from outside: GitHub's answers, the runner ID read from the pod, and which API calls
      succeed. `token.None?` is a token granted. A delete that finds nothing counts as accepted. */
  datatype Answers = Answers(
    token: Option<GithubError>, secretOk: bool, podOk: bool, exec: Option<int>, github: GithubRunner, annotateOk: bool,
    podDelete: bool, secretDelete: bool, bodyOk: bool, statusOk: bool)

  datatype Verdict = Finished | Requeue | RequeueAfter(seconds: nat) | Failure

  /** The working copy a pass edits; it is written back by the deferred patch. */
  datatype Copy = Copy(id: Option<int>, finalizer: bool, phase: Phase, online: Option<bool>)

  /** What a pass has done when it returns: the working copy, and the pod and secret, which are written at once. */
  datatype Progress = Progress(copy: Copy, pod: Option<Pod>, secret: Option<Secret>, deletedPod: bool, verdict: Verdict)

  predicate Tolerated(e: GithubError) { e != OtherError }

  function CopyOf(s: State): Copy { Copy(s.id, s.finalizer, s.phase, s.online) }

  const NO_ID := -1

  function IdOf(id: Option<int>): int { match id case None => NO_ID case Some(n) => n }

  function ReconcileStatus(c: Copy, evict: bool, pod: Pod, a: Answers): (Copy, Verdict) {
    match pod.phase
    case PodRunning =>
      if !pod.ready then (c, Finished)
      else if a.exec.None? then (c, Failure)
      else
        var known := c.(id := a.exec);
        (match a.github
         case Unreachable(_) => (known, Failure)
         case Known(offline, busy) =>
           if offline then (known.(online := Some(false)), RequeueAfter(5))
           else
             var online := known.(online := Some(true));
             if !busy then (online.(phase := Idle), Finished)
             else (online.(phase := Active), if evict && !a.annotateOk then Failure else Finished))
    case PodSucceeded => (c.(phase := Complete, online := Some(false)), Finished)
    case _ => (c, Finished)
  }

  function NeedsToken(secret: Option<Secret>): bool { secret.None? || secret.value.expired }

  function Ensure(s: State, a: Answers): Progress {
    var c := CopyOf(s).(finalizer := true);
    if NeedsToken(s.secret) && a.token.Some? then
      Progress(c, s.pod, s.secret, false, if Tolerated(a.token.value) then Finished else Failure)
    else if !a.secretOk then Progress(c, s.pod, s.secret, false, Failure)
    else
      var secret := Some(Secret(false));
      if !a.podOk then Progress(c, s.pod, secret, false, Failure)
      else
        var pod := if s.pod.None? then Pod(PodPending, false) else s.pod.value;
        var (c', verdict) := ReconcileStatus(c.(phase := Pending), s.evict, pod, a);
        Progress(c', Some(pod), secret, false, verdict)
  }

  function Release(s: State, a: Answers): Progress {
    var c := CopyOf(s);
    if s.phase == Active then
      if IdOf(s.id) == NO_ID then Progress(c.(phase := Complete), s.pod, s.secret, false, Requeue)
      else match a.github
        case Unreachable(e) =>
          if Tolerated(e) then Progress(c.(phase := Complete), s.pod, s.secret, false, Requeue)
          else Progress(c, s.pod, s.secret, false, Failure)
        case Known(_, busy) =>
          if !busy then Progress(c.(phase := Complete), s.pod, s.secret, false, Requeue)
          else Progress(c, s.pod, s.secret, false, RequeueAfter(60))
    else if NeedsToken(s.secret) && a.token.Some? && !Tolerated(a.token.value) then
      Progress(c, s.pod, s.secret, false, Failure)
    else if !a.secretOk then Progress(c, s.pod, s.secret, false, Failure)
    else
      // A refused token leaves an expiry in the past on the secret.
      var secret := Some(Secret(NeedsToken(s.secret) && a.token.Some?));
      if !a.podDelete then Progress(c, s.pod, secret, false, Failure)
      else if !a.secretDelete then Progress(c, None, secret, true, Failure)
      else Progress(c.(finalizer := false), None, None, true, Finished)
  }

  function Work(s: State, a: Answers): Progress {
    if s.terminating then Release(s, a) else Ensure(s, a)
  }

  /** The deferred patch: the body and the status are written separately, and either write may fail. */
  function Commit(s: State, p: Progress, a: Answers): State {
    var body := if a.bodyOk then s.(id := p.copy.id, finalizer := p.copy.finalizer) else s;
    var status := if a.statusOk then body.(phase := p.copy.phase, online := p.copy.online) else body;
    status.(pod := p.pod, secret := p.secret, gone := s.terminating && !status.finalizer)
  }

  /** A write is sent only when there is something to write, and only then can it fail. */
  predicate CommitFails(s: State, p: Progress, a: Answers) {
    || (!a.bodyOk && (s.id != p.copy.id || s.finalizer != p.copy.finalizer))
    || (!a.statusOk && (s.phase != p.copy.phase || s.online != p.copy.online))
  }

  function Pass(s: State, a: Answers): State {
    if s.gone then s else Commit(s, Work(s, a), a)
  }

  /** What goes on between passes: the pod and the secret change or vanish, deletion is requested. The ID, the phase,
      the condition and the finalizer are left to the controller; without a finalizer a deleted object is gone at
      once. */
  predicate Interferes(s: State, s': State) {
    && s'.(pod := s.pod, secret := s.secret, terminating := s.terminating, gone := s.gone) == s
    && (s.terminating ==> s'.terminating)
    && (s'.gone <==> s.gone || (s'.terminating && !s'.finalizer))
  }

  datatype Step = ByPass(answers: Answers) | ByOthers

  predicate Steps(step: Step, s: State, s': State) {
    match step
    case ByPass(a) => s' == Pass(s, a)
    case ByOthers => Interferes(s, s')
  }

  /** What the reconciler reports: a failed write overrides the verdict of the work. */
  function Reported(s: State, a: Answers): Verdict {
    if s.gone then Finished
    else if CommitFails(s, Work(s, a), a) then Failure
    else Work(s, a).verdict
  }

  /* ---- one pass over a live runner ---- */

  /** What a pass over a live runner persists, from its pod and the answers alone. Past secret and pod, the phase is
      Active or Idle for a runner found online, by whether it is busy, Complete for a pod that succeeded, and Pending
      for everything else. */
  lemma LivePass(s: State, a: Answers)
    requires !s.gone && !s.terminating
    ensures
      var after := Pass(s, a);
      var refreshed := (s.secret.None? || s.secret.value.expired ==> a.token.None?) && a.secretOk;
      var reached := refreshed && a.podOk;
      var asked := reached && s.pod == Some(Pod(PodRunning, true)) && a.exec.Some?;
      var online := asked && a.github.Known? && !a.github.offline;
      var succeeded := reached && s.pod.Some? && s.pod.value.phase == PodSucceeded;
      && (reached && a.statusOk ==>
            && (after.phase == Active <==> online && a.github.busy)
            && (after.phase == Idle <==> online && !a.github.busy)
            && (after.phase == Complete <==> succeeded)
            && (after.phase == Pending <==> !online && !succeeded))
      && (!(reached && a.statusOk) ==> after.phase == s.phase)
      && after.online == (if !a.statusOk then s.online
                          else if asked && a.github.Known? then Some(!a.github.offline)
                          else if succeeded then Some(false) else s.online)
      && after.id == (if a.bodyOk && asked then a.exec else s.id)
      && after.finalizer == (s.finalizer || a.bodyOk)
      && after.pod == (if reached && s.pod.None? then Some(Pod(PodPending, false)) else s.pod)
      && after.secret == (if refreshed then Some(Secret(false)) else s.secret)
      && !after.gone && !after.terminating && after.evict == s.evict
  {
  }

  /** Some change the pass meant to persist was not written. */
  predicate Unwritten(s: State, a: Answers) {
    CopyOf(Pass(s, a)) != CopyOf(Pass(s, a.(bodyOk := true, statusOk := true)))
  }

  /** What a pass over a live runner reports. A token GitHub refuses for good ends the pass quietly; an offline runner
      is looked at again after five seconds. */
  lemma LiveVerdict(s: State, a: Answers)
    requires !s.gone && !s.terminating
    ensures
      var stale := s.secret.None? || s.secret.value.expired;
      var asked := s.pod == Some(Pod(PodRunning, true));
      Reported(s, a) ==
        if Unwritten(s, a) then Failure
        else if stale && a.token in {Some(Forbidden), Some(NotFound)} then Finished
        else if (stale && a.token.Some?) || !a.secretOk || !a.podOk then Failure
        else if !asked then Finished
        else if a.exec.None? || a.github.Unreachable? then Failure
        else if a.github.offline then RequeueAfter(5)
        else if a.github.busy && s.evict && !a.annotateOk then Failure
        else Finished
  {
  }

  /** What a pass over a runner being deleted reports: a busy runner is looked at again after a minute, a released one
      at once. */
  lemma DeletionVerdict(s: State, a: Answers)
    requires !s.gone && s.terminating && s.finalizer
    ensures
      var stale := s.secret.None? || s.secret.value.expired;
      var known := s.id !in {None, Some(-1)};
      Reported(s, a) ==
        if Unwritten(s, a) then Failure
        else if s.phase == Active then
          if known && a.github == Unreachable(OtherError) then Failure
          else if known && a.github.Known? && a.github.busy then RequeueAfter(60)
          else Requeue
        else if stale && a.token == Some(OtherError) then Failure
        else if a.secretOk && a.podDelete && a.secretDelete then Finished
        else Failure
  {
  }

  /* ---- Idle and Active runners are known and online ---- */

  predicate KnownOnline(s: State) {
    s.phase in {Idle, Active} ==> s.id.Some? && s.online == Some(true)
  }

  /** One pass loses this exactly when it writes the status but not the body of a runner whose ID it has just
      learned. */
  lemma PassKeepsKnown(s: State, a: Answers)
    requires KnownOnline(s)
    ensures KnownOnline(Pass(s, a)) <==>
      !(!s.gone && a.statusOk && !a.bodyOk && s.id.None? && Work(s, a).copy.phase in {Idle, Active})
  {
  }

  predicate Identified(s: State) { s.id != Some(NO_ID) }

  predicate Reliable(step: Step) {
    step.ByPass? ==> step.answers.bodyOk && step.answers.statusOk && step.answers.exec != Some(NO_ID)
  }

  /** On every run in which both writes succeed and no pod reports the ID -1, through error exits and the reset to
      Pending alike, an Idle or Active runner has an ID and is online, so the Active-without-ID branch is never
      taken. */
  lemma {:induction false} KnownOnRuns(states: seq<State>, steps: seq<Step>)
    requires |states| == |steps| + 1 && KnownOnline(states[0]) && Identified(states[0])
    requires forall i :: 0 <= i < |steps| ==> Reliable(steps[i]) && Steps(steps[i], states[i], states[i + 1])
    ensures forall i :: 0 <= i < |states| ==>
      KnownOnline(states[i]) && (states[i].phase == Active ==> IdOf(states[i].id) != NO_ID)
  {
    if steps != [] {
      assert Reliable(steps[0]) && Steps(steps[0], states[0], states[1]);
      KnownOnRuns(states[1..], steps[1..]);
      forall i | 1 <= i < |states|
        ensures KnownOnline(states[i]) && (states[i].phase == Active ==> IdOf(states[i].id) != NO_ID)
      {
        assert states[i] == states[1..][i - 1];
      }
    }
  }

  /* ---- the deletion protocol ---- */

  /** A pass deletes the pod exactly when deletion is requested, the persisted phase is not Active, and the secret could
      be brought up to date, where a forbidden or unknown token does no harm; GitHub's answer about the runner plays no
      part. */
  lemma PodDeletedIff(s: State, a: Answers)
    requires !s.gone
    ensures Work(s, a).deletedPod <==>
      && s.terminating && s.phase != Active && a.secretOk && a.podDelete
      && (s.secret.None? || s.secret.value.expired ==> a.token in {None, Some(Forbidden), Some(NotFound)})
    ensures Work(s, a).deletedPod ==> Pass(s, a).pod.None?
    ensures s.pod.Some? && Pass(s, a).pod.None? ==> Work(s, a).deletedPod
  {
  }

  /** While deletion is requested on an Active runner a pass touches nothing but the phase, and sets that to Complete
      exactly when the status is written and GitHub reports the runner not busy, forbidden or not found, or there is no
      ID to ask for. Any other error leaves it Active. */
  lemma ActiveIsProtected(s: State, a: Answers)
    requires !s.gone && s.terminating && s.finalizer && s.phase == Active
    ensures Pass(s, a).phase == Complete <==>
      && a.statusOk
      && (|| s.id in {None, Some(-1)}
          || a.github in {Unreachable(Forbidden), Unreachable(NotFound)}
          || (a.github.Known? && !a.github.busy))
    ensures Pass(s, a) == s || Pass(s, a) == s.(phase := Complete)
    ensures !Work(s, a).deletedPod
  {
  }

  /** What a pass over a runner being deleted leaves behind once its phase is not Active: the pod goes when the secret
      could be brought up to date, the secret goes after it, and only then the finalizer. */
  lemma DeletionPass(s: State, a: Answers)
    requires !s.gone && s.terminating && s.finalizer && s.phase != Active
    ensures
      var after := Pass(s, a);
      var stale := s.secret.None? || s.secret.value.expired;
      var prepared := a.secretOk && (stale ==> a.token in {None, Some(Forbidden), Some(NotFound)});
      var done := prepared && a.podDelete && a.secretDelete;
      && after.pod == (if prepared && a.podDelete then None else s.pod)
      && after.secret == (if done then None else if prepared then Some(Secret(stale && a.token.Some?)) else s.secret)
      && (after.gone <==> done && a.bodyOk) && after.finalizer == !after.gone
      && after.(pod := s.pod, secret := s.secret, finalizer := true, gone := false) == s
  {
    RefusalsTolerated(a.token);
    var after := Pass(s, a);
    assert after.id == s.id && after.phase == s.phase && after.online == s.online;
    assert after.evict == s.evict && after.terminating == s.terminating;
    assert after.pod == Work(s, a).pod && after.secret == Work(s, a).secret;
  }

  lemma RefusalsTolerated(token: Option<GithubError>)
    ensures token in {None, Some(Forbidden), Some(NotFound)} <==> (token.Some? ==> Tolerated(token.value))
  {
  }

  /** The finalizer comes off only in a pass after which the pod and the secret are deleted or absent. */
  lemma FinalizerIsLast(s: State, a: Answers)
    requires !s.gone && s.finalizer && !Pass(s, a).finalizer
    ensures s.terminating && s.phase != Active && Pass(s, a).pod.None? && Pass(s, a).secret.None? && Pass(s, a).gone
  {
  }

  /** The pass finds the runner not busy, forbidden, unknown to GitHub or without an ID, and writes its status. */
  predicate Releases(step: Step, s: State) {
    && step.ByPass? && step.answers.statusOk
    && (|| s.id in {None, Some(-1)}
        || step.answers.github in {Unreachable(Forbidden), Unreachable(NotFound)}
        || (step.answers.github.Known? && !step.answers.github.busy))
  }

  /** On any run that starts with deletion requested on an Active runner, a pass deletes the pod, or takes it away, only
      if an earlier one released the runner and persisted Complete. */
  lemma {:induction false} PodSurvivesUntilReleased(states: seq<State>, steps: seq<Step>, n: nat)
    requires |states| == |steps| + 1 && n < |steps|
    requires forall i :: 0 <= i < |steps| ==> Steps(steps[i], states[i], states[i + 1])
    requires var s := states[0]; !s.gone && s.terminating && s.finalizer && s.phase == Active
    requires steps[n].ByPass?
    requires Work(states[n], steps[n].answers).deletedPod || (states[n].pod.Some? && states[n + 1].pod.None?)
    ensures exists k ::
      0 <= k < n && Releases(steps[k], states[k]) && states[k].phase == Active && states[k + 1].phase == Complete
  {
    var s, s' := states[0], states[1];
    assert Steps(steps[0], s, s');
    if steps[0].ByPass? { ActiveIsProtected(s, steps[0].answers); }
    if Releases(steps[0], s) {
      assert n > 0;
    } else {
      assert s'.phase == Active && !s'.gone && s'.terminating && s'.finalizer;
      assert n > 0;
      PodSurvivesUntilReleased(states[1..], steps[1..], n - 1);
      var k :| 0 <= k < n - 1 && Releases(steps[1..][k], states[1..][k])
        && states[1..][k].phase == Active && states[1..][k + 1].phase == Complete;
      assert Releases(steps[k + 1], states[k + 1]);
    }
  }

  /** GitHub answers, with a refusal or with a runner at rest, and every write and delete goes through. */
  predicate Untroubled(a: Answers) {
    && a.token in {None, Some(Forbidden), Some(NotFound)}
    && (a.github in {Unreachable(Forbidden), Unreachable(NotFound)} || (a.github.Known? && !a.github.busy))
    && a.secretOk && a.podDelete && a.secretDelete && a.bodyOk && a.statusOk
  }

  /** The number of untroubled passes deletion still needs. */
  function Remaining(s: State): nat {
    if s.gone then 0 else if s.phase == Active then 2 else 1
  }

  /** Every untroubled pass on a runner being deleted brings the end one pass nearer. */
  lemma DeletionProgresses(s: State, a: Answers)
    requires s.terminating && Untroubled(a) && !s.gone && s.finalizer
    ensures Remaining(Pass(s, a)) == Remaining(s) - 1
    ensures Pass(s, a).gone ==> Pass(s, a).pod.None? && Pass(s, a).secret.None?
  {
  }

  /** Interference and troubled passes never set it back, so two untroubled passes on any run finish the deletion. */
  lemma DeletionNeverRegresses(s: State, s': State, step: Step)
    requires s.terminating && s.finalizer != s.gone && Steps(step, s, s')
    ensures s'.terminating && s'.finalizer != s'.gone && Remaining(s') <= Remaining(s)
  {
  }

  lemma {:induction false} TwoPassesFinish(states: seq<State>, steps: seq<Step>, i: nat, j: nat)
    requires |states| == |steps| + 1 && i < j < |steps|
    requires forall k :: 0 <= k < |steps| ==> Steps(steps[k], states[k], states[k + 1])
    requires states[0].terminating && states[0].finalizer != states[0].gone
    requires steps[i].ByPass? && Untroubled(steps[i].answers) && steps[j].ByPass? && Untroubled(steps[j].answers)
    ensures states[j + 1].gone
  {
    RemainingAt(states, steps, i);
    if !states[i].gone { DeletionProgresses(states[i], steps[i].answers); }
    assert Steps(steps[i], states[i], states[i + 1]);
    DeletionNeverRegresses(states[i], states[i + 1], steps[i]);
    RemainingAt(states[i + 1..], steps[i + 1..], j - i - 1);
    assert states[i + 1..][j - i - 1] == states[j];
    assert Steps(steps[j], states[j], states[j + 1]);
    if !states[j].gone { DeletionProgresses(states[j], steps[j].answers); }
  }

  lemma {:induction false} RemainingAt(states: seq<State>, steps: seq<Step>, i: nat)
    requires |states| == |steps| + 1 && i < |states|
    requires forall k :: 0 <= k < |steps| ==> Steps(steps[k], states[k], states[k + 1])
    requires states[0].terminating && states[0].finalizer != states[0].gone
    ensures states[i].terminating && states[i].finalizer != states[i].gone
    ensures Remaining(states[i]) <= Remaining(states[0])
  {
    if i > 0 {
      assert Steps(steps[0], states[0], states[1]);
      DeletionNeverRegresses(states[0], states[1], steps[0]);
      RemainingAt(states[1..], steps[1..], i - 1);
    }
  }

  /* ---- the phase is not monotone ---- */

  /** A pass on a live runner persists Pending whenever it gets past the pod and then cannot finish: exactly these
      answers undo an Idle, Active or Complete phase. */
  lemma ResetToPending(s: State, a: Answers)
    requires !s.gone && !s.terminating && s.phase in {Idle, Active, Complete}
    ensures Pass(s, a).phase == Pending <==>
      && (NeedsToken(s.secret) ==> a.token.None?) && a.secretOk && a.podOk && a.statusOk
      && (s.pod.None? || match s.pod.value.phase
          case PodSucceeded => false
          case PodRunning => !s.pod.value.ready || a.exec.None? || a.github.Unreachable? || a.github.offline
          case _ => true)
  {
  }

  /** So the protection of a busy runner can be lost: one GitHub error resets Active to Pending, and a deletion
      requested then takes the pod away although GitHub reports the runner busy all along. */
  lemma BusyRunnerLosesPod(id: int, evict: bool)
    ensures
      var ok := Answers(None, true, true, Some(id), Known(false, true), true, true, true, true, true);
      var s0 := State(
        Some(id), true, false, Active, Some(true), evict, Some(Pod(PodRunning, true)), Some(Secret(false)), false);
      var s1 := Pass(s0, ok.(github := Unreachable(OtherError)));
      var s2 := s1.(terminating := true);
      && KnownOnline(s0) && Pass(s0, ok) == s0 && s1 == s0.(phase := Pending)
      && Interferes(s1, s2) && Work(s2, ok).deletedPod && Pass(s2, ok).gone
  {
  }
}
