/** The composite runner index of the GitHub hook (hooks/github_hook.go): when two keys agree, what an indexed lookup
    finds, and which runner an event triggers. */
module CompositeIndex {
  import opened Strings
  import opened Base64
  import RunnerLifecycle

  /** The fields of a Runner the hook reads, and the one annotation it writes. */
  datatype Runner = Runner(name: Bytes, id: Option<int>, group: Bytes, url: Bytes, assignedJobAt: Option<string>)

  const NAME := "name:"
  const ID := "id:"
  const GROUP := "group:"
  const URL := ";url:"

  function Plain(name: Bytes, id: Bytes, group: Bytes, url: Bytes): Bytes {
    NAME + name + ";" + ID + id + ";" + GROUP + group + URL + url
  }

  /** runnerCompositeIndex */
  function Key(name: Bytes, id: Bytes, group: Bytes, url: Bytes): string {
    Encode(Plain(name, id, group, url))
  }

  /** The key's text, before encoding. */
  lemma KeyText(name: Bytes, id: Bytes, group: Bytes, url: Bytes)
    ensures Key(name, id, group, url) == Encode("name:" + name + ";id:" + id + ";group:" + group + ";url:" + url)
  {
    var front := NAME + name;
    assert front + ";" + ID == front + ";id:";
    var middle := front + ";id:" + id;
    assert middle + ";" + GROUP == middle + ";group:";
    assert Plain(name, id, group, url) == middle + ";group:" + group + ";url:" + url;
    hide Plain, Encode;
  }

  const NO_ID := RunnerLifecycle.NO_ID

  /** runnerCompositeIndexer: a runner without an ID is not indexed. */
  function KeysOf(r: Runner): seq<string> {
    if RunnerLifecycle.IdOf(r.id) == NO_ID then [] else [Key(r.name, Itoa(r.id.value), r.group, r.url)]
  }

  predicate NoSemicolon(s: string) { forall i :: 0 <= i < |s| ==> s[i] != ';' }

  predicate OccursAt(s: string, part: string, k: nat) {
    k + |part| <= |s| && s[k..k + |part|] == part
  }

  predicate Contains(s: string, part: string) {
    exists k: nat | k <= |s| :: OccursAt(s, part, k)
  }

  /* ---- splitting ---- */

  lemma SplitAtSemicolon(a: string, x: string, b: string, y: string)
    requires NoSemicolon(a) && NoSemicolon(b) && a + ";" + x == b + ";" + y
    ensures a == b && x == y
  {
    var s, t := a + ";" + x, b + ";" + y;
    assert s[|a|] == ';' && t[|b|] == ';';
    assert forall i :: 0 <= i < |a| ==> s[i] == a[i];
    assert forall i :: 0 <= i < |b| ==> t[i] == b[i];
    assert |a| == |b|;
    assert a == s[..|a|] && b == t[..|b|] && x == s[|a| + 1..] && y == t[|b| + 1..];
  }

  function Tail(group: string, url: string): string { group + URL + url }

  /** A text whose group ends earlier and whose URL takes up the rest of the other group. */
  predicate Shifted(g: string, u: string, g': string, u': string) {
    && |g| + |URL| <= |g'| && g'[..|g| + |URL|] == g + URL
    && u == g'[|g| + |URL|..] + URL + u'
  }

  lemma ShorterGroupShifts(g: string, u: string, g': string, u': string)
    requires Tail(g, u) == Tail(g', u') && |g| < |g'|
    ensures Shifted(g, u, g', u')
  {
    var s := Tail(g, u);
    assert forall m :: 0 <= m < |URL| ==> s[|g| + m] == URL[m];
    assert s[|g'|] == URL[0] == ';' && URL[1] != ';' && URL[2] != ';' && URL[3] != ';' && URL[4] != ';';
    assert |g| + |URL| <= |g'|;
    assert g' == s[..|g'|] && g + URL == s[..|g| + |URL|];
    assert u == s[|g| + |URL|..] && URL + u' == s[|g'|..];
    assert u == s[|g| + |URL|..|g'|] + s[|g'|..];
  }

  lemma ShiftedTails(g: string, u: string, g': string, u': string)
    requires Shifted(g, u, g', u')
    ensures Tail(g, u) == Tail(g', u')
  {
    var x := g'[|g| + |URL|..];
    assert g' == g + URL + x;
  }

  lemma TailsAgree(g: string, u: string, g': string, u': string)
    ensures Tail(g, u) == Tail(g', u') <==> (g == g' && u == u') || Shifted(g, u, g', u') || Shifted(g', u', g, u)
  {
    if Tail(g, u) == Tail(g', u') {
      if |g| < |g'| { ShorterGroupShifts(g, u, g', u'); }
      else if |g'| < |g| { ShorterGroupShifts(g', u', g, u); }
      else {
        assert g == Tail(g, u)[..|g|] && g' == Tail(g', u')[..|g|];
        assert u == Tail(g, u)[|g| + |URL|..] && u' == Tail(g', u')[|g| + |URL|..];
      }
    }
    if Shifted(g, u, g', u') { ShiftedTails(g, u, g', u'); }
    if Shifted(g', u', g, u) { ShiftedTails(g', u', g, u); }
  }

  lemma PlainSplits(n: Bytes, i: Bytes, g: Bytes, u: Bytes)
    ensures Plain(n, i, g, u) == (NAME + n) + ";" + ((ID + i) + ";" + (GROUP + Tail(g, u)))
  {
  }

  lemma PlainsAgree(n: Bytes, i: Bytes, g: Bytes, u: Bytes, n': Bytes, i': Bytes, g': Bytes, u': Bytes)
    requires NoSemicolon(n) && NoSemicolon(n') && NoSemicolon(i) && NoSemicolon(i')
    requires Plain(n, i, g, u) == Plain(n', i', g', u')
    ensures n == n' && i == i' && Tail(g, u) == Tail(g', u')
  {
    PlainSplits(n, i, g, u);
    PlainSplits(n', i', g', u');
    hide Plain, Tail;
    var t, t' := Tail(g, u), Tail(g', u');
    SplitAtSemicolon(NAME + n, (ID + i) + ";" + (GROUP + t), NAME + n', (ID + i') + ";" + (GROUP + t'));
    SplitAtSemicolon(ID + i, GROUP + t, ID + i', GROUP + t');
    assert n == (NAME + n)[|NAME|..] && n' == (NAME + n')[|NAME|..];
    assert i == (ID + i)[|ID|..] && i' == (ID + i')[|ID|..];
    assert t == (GROUP + t)[|GROUP|..] && t' == (GROUP + t')[|GROUP|..];
  }

  /** For names and IDs without ';', two keys are equal exactly when name and ID are, and group and URL either are too
      or can be told apart only by where the separator between them stands. */
  lemma KeysAgree(n: Bytes, i: Bytes, g: Bytes, u: Bytes, n': Bytes, i': Bytes, g': Bytes, u': Bytes)
    requires NoSemicolon(n) && NoSemicolon(n') && NoSemicolon(i) && NoSemicolon(i')
    ensures Key(n, i, g, u) == Key(n', i', g', u') <==>
      n == n' && i == i' && ((g == g' && u == u') || Shifted(g, u, g', u') || Shifted(g', u', g, u))
  {
    TailsAgree(g, u, g', u');
    PlainSplits(n, i, g, u);
    PlainSplits(n', i', g', u');
    hide Plain, Tail, Encode, Shifted, NoSemicolon;
    if Key(n, i, g, u) == Key(n', i', g', u') {
      EncodeInjective(Plain(n, i, g, u), Plain(n', i', g', u'));
      PlainsAgree(n, i, g, u, n', i', g', u');
    }
  }

  lemma ShiftNeedsSeparator(g: string, u: string, g': string, u': string)
    requires Shifted(g, u, g', u')
    ensures Contains(u, URL)
  {
    var k := |g'| - |g| - |URL|;
    assert OccursAt(u, URL, k);
  }

  /** The condition on URLs is needed: these two differ in group and URL and share a key. */
  lemma SeparatorInUrlCollides(n: Bytes, i: Bytes)
    ensures Key(n, i, "a", "b;url:c") == Key(n, i, "a;url:b", "c")
  {
    assert "a" + URL + "b;url:c" == "a;url:b;url:c" == "a;url:b" + URL + "c";
    PlainSplits(n, i, "a", "b;url:c");
    PlainSplits(n, i, "a;url:b", "c");
  }

  /* ---- lookup ---- */

  /** The runner has an ID and agrees in all four fields. */
  predicate MatchesAll(r: Runner, name: string, id: int, group: string, url: string) {
    r.id == Some(id) && id != NO_ID && r.name == name && r.group == group && r.url == url
  }

  predicate WellNamed(r: Runner) { NoSemicolon(r.name) && !Contains(r.url, URL) }

  /** An indexed lookup finds a runner exactly when a linear scan over the four fields would. */
  lemma IndexAgreesWithScan(r: Runner, name: Bytes, id: int, group: Bytes, url: Bytes)
    requires WellNamed(r) && NoSemicolon(name) && !Contains(url, URL)
    ensures Key(name, Itoa(id), group, url) in KeysOf(r) <==> MatchesAll(r, name, id, group, url)
    ensures MatchesAll(r, name, id, group, url) <==>
      r.id == Some(id) && id != -1 && r.name == name && r.group == group && r.url == url
  {
    if r.id.Some? && r.id.value != NO_ID {
      KeysAgree(name, Itoa(id), group, url, r.name, Itoa(r.id.value), r.group, r.url);
      if Itoa(id) == Itoa(r.id.value) { ItoaInjective(id, r.id.value); }
      if Shifted(group, url, r.group, r.url) { ShiftNeedsSeparator(group, url, r.group, r.url); }
      if Shifted(r.group, r.url, group, url) { ShiftNeedsSeparator(r.group, r.url, group, url); }
    }
  }
}
