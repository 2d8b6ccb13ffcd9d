/** Handling of a workflow job event (hooks/github_hook.go): which runner is told that it was given a job. */
module GithubHooks {
  import opened Strings
  import opened Base64
  import opened CompositeIndex

  datatype ObjectKey = ObjectKey(namespace: string, name: Bytes)

  type Runners = map<ObjectKey, Runner>

  datatype Event = Event(
    action: string,
    ownerType: string,
    ownerUrl: Bytes,
    repoUrl: Bytes,
    runnerId: int,
    runnerName: Bytes,
    runnerGroup: Bytes)
  {
    function KeyAt(url: Bytes): string { Key(runnerName, Itoa(runnerId), runnerGroup, url) }

    predicate Names(r: Runner, url: string) { MatchesAll(r, runnerName, runnerId, runnerGroup, url) }

    predicate ByOrganization() { ownerType == "Organization" }
  }

  /** Which of the calls an event makes succeed. */
  datatype Calls = Calls(listByOwner: bool, listByRepo: bool, get: bool, patch: bool) {
    predicate AllSucceed() { listByOwner && listByRepo && get && patch }
  }

  /** What a list call with the index field returns. */
  function Indexed(runners: Runners, key: string): set<ObjectKey> {
    set k | k in runners && key in KeysOf(runners[k])
  }

  /** What a scan over the four fields returns. */
  function Scanned(runners: Runners, e: Event, url: string): set<ObjectKey> {
    set k | k in runners && e.Names(runners[k], url)
  }

  /** No name holds a ';' and no URL the text that separates group from URL. */
  predicate Separable(runners: Runners, e: Event) {
    && (forall k | k in runners :: WellNamed(runners[k]))
    && NoSemicolon(e.runnerName)
    && !Contains(e.ownerUrl, URL)
    && !Contains(e.repoUrl, URL)
  }

  lemma IndexIsScan(runners: Runners, e: Event, url: Bytes)
    requires Separable(runners, e) && !Contains(url, URL)
    ensures Indexed(runners, e.KeyAt(url)) == Scanned(runners, e, url)
  {
    hide KeysOf, MatchesAll, WellNamed;
    forall k | k in runners
      ensures e.KeyAt(url) in KeysOf(runners[k]) <==> e.Names(runners[k], url)
    {
      IndexAgreesWithScan(runners[k], e.runnerName, e.runnerId, e.runnerGroup, url);
    }
  }

  /** The runners an event may concern: those indexed under the owner of the repository if that is an organization and
      there are any, else those indexed under the repository; none where a list call fails. */
  function Candidates(runners: Runners, e: Event, calls: Calls): set<ObjectKey> {
    var byOwner := if e.ByOrganization() then Indexed(runners, e.KeyAt(e.ownerUrl)) else {};
    if e.ByOrganization() && !calls.listByOwner then {}
    else if byOwner != {} then byOwner
    else if calls.listByRepo then Indexed(runners, e.KeyAt(e.repoUrl))
    else {}
  }

  class GithubHook {
    var runners: Runners

    /** triggerRunnerReconciliation: a runner that has gone is not an error. */
    method TriggerRunnerReconciliation(key: ObjectKey, now: string, get: bool, patch: bool) returns (ok: bool)
      modifies this
      ensures ok <==> get && (key in old(runners) ==> patch)
      ensures runners ==
        if get && patch && key in old(runners) then old(runners)[key := old(runners)[key].(assignedJobAt := Some(now))]
        else old(runners)
    {
      if !get { return false; }
      if key !in runners { return true; }
      if !patch { return false; }
      runners := runners[key := runners[key].(assignedJobAt := Some(now))];
      return true;
    }

    /** processWorkflowJobEvent. The runner reported is the one the event was passed on to. */
    method ProcessWorkflowJobEvent(e: Event, now: string, calls: Calls) returns (triggered: Option<ObjectKey>)
      modifies this
      ensures triggered.Some? <==>
        e.action == "in_progress" && calls.get && calls.patch && |Candidates(old(runners), e, calls)| == 1
      ensures triggered.Some? ==> triggered.value in Candidates(old(runners), e, calls)
      ensures runners ==
        if triggered.Some? then
          old(runners)[triggered.value := old(runners)[triggered.value].(assignedJobAt := Some(now))]
        else old(runners)
    {
      triggered := None;
      if e.action != "in_progress" { return; }
      var list: set<ObjectKey> := {};
      if e.ownerType == "Organization" {
        if !calls.listByOwner { return; }
        list := Indexed(runners, e.KeyAt(e.ownerUrl));
      }
      if |list| == 0 {
        if !calls.listByRepo { return; }
        list := Indexed(runners, e.KeyAt(e.repoUrl));
      }
      if |list| == 1 {
        assert list == Candidates(runners, e, calls);
        assert list != {};
        var key :| key in list;
        var ok := TriggerRunnerReconciliation(key, now, calls.get, calls.patch);
        if ok { triggered := Some(key); }
      }
    }
  }

  /** The event tells of exactly this runner: the only one it names at the owner's URL, or the only one at the
      repository's where the owner is no organization or has none. */
  predicate Designates(runners: Runners, e: Event, key: ObjectKey) {
    var byOwner := if e.ByOrganization() then Scanned(runners, e, e.ownerUrl) else {};
    byOwner == {key} || (byOwner == {} && Scanned(runners, e, e.repoUrl) == {key})
  }

  /** Whom an event concerns for any answers of the list calls: a failed call by owner ends it, and the repository is
      asked only when the owner is no organization or has no such runner. */
  lemma CandidatesExactly(runners: Runners, e: Event, calls: Calls, key: ObjectKey)
    requires Separable(runners, e)
    ensures
      var at := (url: string) =>
        set k | k in runners && MatchesAll(runners[k], e.runnerName, e.runnerId, e.runnerGroup, url);
      var organization := e.ownerType == "Organization";
      key in Candidates(runners, e, calls) <==>
        || (organization && calls.listByOwner && key in at(e.ownerUrl))
        || ((organization ==> calls.listByOwner && at(e.ownerUrl) == {}) && calls.listByRepo && key in at(e.repoUrl))
  {
    hide MatchesAll;
    IndexIsScan(runners, e, e.ownerUrl);
    IndexIsScan(runners, e, e.repoUrl);
  }

  lemma SingletonIs<T>(s: set<T>, x: T)
    ensures s == {x} <==> |s| == 1 && x in s
  {
    if |s| == 1 && x in s {
      assert |s - {x}| == 0;
      assert forall y | y in s :: y == x || y in s - {x};
    }
  }

  /** Where every call succeeds, the one runner an event can be passed on to is the one it designates by a scan over ID,
      name, group and URL; it has the ID, name and group of the event and the organization's or the repository's URL. */
  lemma CandidateIsDesignated(runners: Runners, e: Event, calls: Calls, key: ObjectKey)
    requires Separable(runners, e) && calls.AllSucceed()
    ensures (|Candidates(runners, e, calls)| == 1 && key in Candidates(runners, e, calls)) <==>
      Designates(runners, e, key)
    ensures Designates(runners, e, key) ==>
      key in runners && (e.Names(runners[key], e.repoUrl) || (e.ByOrganization() && e.Names(runners[key], e.ownerUrl)))
  {
    hide MatchesAll;
    IndexIsScan(runners, e, e.ownerUrl);
    IndexIsScan(runners, e, e.repoUrl);
    SingletonIs(Candidates(runners, e, calls), key);
    if Designates(runners, e, key) {
      assert key in Scanned(runners, e, e.repoUrl) || (e.ByOrganization() && key in Scanned(runners, e, e.ownerUrl));
    }
  }
}
