/** The Runner reconciler as the program it is: early returns over a working copy that a deferred patch writes back. */
module RunnerController {
  import opened Strings
  import opened Fleet
  import opened RunnerLifecycle

  /** The working copy of the Runner. */
  class RunnerObject {
    var id: Option<int>
    var finalizer: bool
    var phase: Phase
    var online: Option<bool>

    constructor (c: Copy)
      ensures View() == c
    {
      id, finalizer, phase, online := c.id, c.finalizer, c.phase, c.online;
    }

    ghost function View(): Copy
      reads this
    {
      Copy(id, finalizer, phase, online)
    }
  }

  class RunnerReconciler {
    var id: Option<int>
    var finalizer: bool
    var terminating: bool
    var phase: Phase
    var online: Option<bool>
    var evict: bool
    var pod: Option<Pod>
    var secret: Option<Secret>
    var gone: bool

    ghost function View(): State
      reads this
    {
      State(id, finalizer, terminating, phase, online, evict, pod, secret, gone)
    }

    /** CreateOrUpdate of the token secret. The verdict is set when the pass has to stop here. */
    method EnsureSecret(tolerant: bool, a: Answers) returns (stop: Option<Verdict>)
      modifies this`secret
      ensures stop == if NeedsToken(old(secret)) && a.token.Some? && !(tolerant && Tolerated(a.token.value))
        then Some(if Tolerated(a.token.value) then Finished else Failure)
        else if !a.secretOk then Some(Failure) else None
      ensures secret == if stop.None? then Some(Secret(NeedsToken(old(secret)) && a.token.Some?)) else old(secret)
    {
      var refused := false;
      if NeedsToken(secret) {
        match a.token {
          case Some(e) =>
            if !tolerant || !Tolerated(e) { return Some(if Tolerated(e) then Finished else Failure); }
            refused := true;
          case None =>
        }
      }
      if !a.secretOk { return Some(Failure); }
      secret := Some(Secret(refused));
      return None;
    }

    method EnsurePod(a: Answers) returns (ok: bool)
      modifies this`pod
      ensures ok == a.podOk
      ensures pod == if ok && old(pod).None? then Some(Pod(PodPending, false)) else old(pod)
    {
      if !a.podOk { return false; }
      if pod.None? { pod := Some(Pod(PodPending, false)); }
      return true;
    }

    method ReconcileStatus(runner: RunnerObject, p: Pod, a: Answers) returns (verdict: Verdict)
      modifies runner
      ensures (runner.View(), verdict) == RunnerLifecycle.ReconcileStatus(old(runner.View()), evict, p, a)
    {
      match p.phase {
        case PodRunning =>
          if !p.ready { return Finished; }
          if a.exec.None? { return Failure; }
          runner.id := a.exec;
          if a.github.Unreachable? { return Failure; }
          if a.github.offline {
            runner.online := Some(false);
            return RequeueAfter(5);
          }
          runner.phase := Idle;
          runner.online := Some(true);
          if a.github.busy {
            runner.phase := Active;
            if evict && !a.annotateOk { return Failure; }
          }
          return Finished;
        case PodSucceeded =>
          runner.phase := Complete;
          runner.online := Some(false);
          return Finished;
        case _ =>
          return Finished;
      }
    }

    /** The deletion path. */
    method ReleaseResources(runner: RunnerObject, a: Answers) returns (verdict: Verdict, ghost deletedPod: bool)
      requires terminating && runner.View() == CopyOf(View())
      modifies this`pod, this`secret, runner
      ensures Progress(runner.View(), pod, secret, deletedPod, verdict) == Release(old(View()), a)
    {
      deletedPod := false;
      if runner.phase == Active {
        if IdOf(runner.id) == NO_ID {
          runner.phase := Complete;
          return Requeue, deletedPod;
        }
        if a.github.Unreachable? && !Tolerated(a.github.error) { return Failure, deletedPod; }
        if a.github.Unreachable? || !a.github.busy {
          runner.phase := Complete;
          return Requeue, deletedPod;
        }
        return RequeueAfter(60), deletedPod;
      }
      var stop := EnsureSecret(true, a);
      if stop.Some? { return Failure, deletedPod; }
      if !a.podDelete { return Failure, deletedPod; }
      pod, deletedPod := None, true;
      if !a.secretDelete { return Failure, deletedPod; }
      secret := None;
      runner.finalizer := false;
      return Finished, deletedPod;
    }

    /** The normal path. */
    method EnsureResources(runner: RunnerObject, a: Answers) returns (verdict: Verdict)
      requires !terminating && runner.View() == CopyOf(View())
      modifies this`pod, this`secret, runner
      ensures Progress(runner.View(), pod, secret, false, verdict) == Ensure(old(View()), a)
    {
      runner.finalizer := true;
      var stop := EnsureSecret(false, a);
      if stop.Some? { return stop.value; }
      var ok := EnsurePod(a);
      if !ok { return Failure; }
      runner.phase := Pending;
      verdict := ReconcileStatus(runner, pod.value, a);
    }

    /** A whole pass with its deferred patch. */
    method Reconcile(a: Answers) returns (verdict: Verdict)
      modifies this
      ensures View() == Pass(old(View()), a)
      ensures verdict == Reported(old(View()), a)
    {
      if gone { return Finished; }
      var runner := new RunnerObject(Copy(id, finalizer, phase, online));
      ghost var deletedPod := false;
      if terminating {
        verdict, deletedPod := ReleaseResources(runner, a);
      } else {
        verdict := EnsureResources(runner, a);
      }
      hide Release, Ensure;
      ghost var p := Progress(runner.View(), pod, secret, deletedPod, verdict);
      var ok := Patch(runner, a, p);
      if !ok { verdict := Failure; }
    }

    /** The deferred patch: body first, then status, each only if it has changed. */
    method Patch(runner: RunnerObject, a: Answers, ghost p: Progress) returns (ok: bool)
      requires p.copy == runner.View() && p.pod == pod && p.secret == secret
      modifies this`id, this`finalizer, this`phase, this`online, this`gone
      ensures View() == Commit(old(View()), p, a) && ok == !CommitFails(old(View()), p, a)
    {
      ok := true;
      ghost var t := Commit(View(), p, a);
      if runner.id != id || runner.finalizer != finalizer {
        if a.bodyOk { id, finalizer := runner.id, runner.finalizer; } else { ok := false; }
      }
      assert id == t.id && finalizer == t.finalizer;
      if runner.phase != phase || runner.online != online {
        if a.statusOk { phase, online := runner.phase, runner.online; } else { ok := false; }
      }
      gone := terminating && !finalizer;
      assert phase == t.phase && online == t.online;
      hide Commit;
    }
  }
}
