/** ControllerRevisions, their order and their equality test (pkg/revision/util.go). */
module Revisions {
  import opened Strings
  import opened Slices

  type Labels = map<string, string>

  const HASH_LABEL := "octorun.github.io/revision-hash"

  /** `created` is the creation timestamp the API server gave the object; `controller` is the UID of its controller
      reference. */
  datatype ControllerRevision = ControllerRevision(
    name: string, labels: Labels, controller: Option<string>, raw: string, number: int, created: int)

  /** FNV plus SafeEncodeString, as a function of the data and the probe. */
  type Hasher = (string, Option<int>) -> string

  const MAX_PREFIX := 223

  function Name(prefix: string, hash: string): string {
    (if |prefix| > MAX_PREFIX then prefix[..MAX_PREFIX] else prefix) + "-" + hash
  }

  /** For one owner, two names are equal exactly when the hashes are, and a hash of at most 29 characters keeps the
      name within the 253 characters Kubernetes allows. */
  lemma NameInjective(prefix: string, h1: string, h2: string)
    ensures Name(prefix, h1) == Name(prefix, h2) <==> h1 == h2
    ensures |h1| <= 29 ==> |Name(prefix, h1)| <= 253
  {
    var front := Name(prefix, "");
    assert forall h :: Name(prefix, h) == front + h;
    assert Name(prefix, h1)[|front|..] == h1 && Name(prefix, h2)[|front|..] == h2;
  }

  /** A prefix of up to 223 characters is taken whole, a longer one cut there. */
  lemma NameOfParts(prefix: string, hash: string)
    ensures |prefix| <= 223 ==> Name(prefix, hash) == prefix + "-" + hash
    ensures |prefix| > 223 ==> Name(prefix, hash) == prefix[..223] + "-" + hash && |Name(prefix, hash)| == 224 + |hash|
  {
  }

  /* ---- SortableRevisions.Less ---- */

  predicate RevisionLess(a: ControllerRevision, b: ControllerRevision) {
    if a.number == b.number then
      if b.created == a.created then Less(a.name, b.name) else a.created < b.created
    else
      a.number < b.number
  }

  /** A lower number comes first, then an earlier creation, then the name that is smaller at its first difference. */
  lemma RevisionLessByKeys(a: ControllerRevision, b: ControllerRevision)
    ensures a.number < b.number ==> RevisionLess(a, b)
    ensures a.number == b.number && a.created < b.created ==> RevisionLess(a, b)
    ensures RevisionLess(a, b) ==> a.number <= b.number && (a.number == b.number ==> a.created <= b.created)
    ensures a.number == b.number && a.created == b.created ==>
      (RevisionLess(a, b) <==> exists k ::
        0 <= k <= |a.name| && k < |b.name| && a.name[..k] == b.name[..k] && (k == |a.name| || a.name[k] < b.name[k]))
  {
    LessAtDifference(a.name, b.name);
  }

  lemma RevisionLessStrict(a: ControllerRevision, b: ControllerRevision, c: ControllerRevision)
    ensures !RevisionLess(a, a)
    ensures RevisionLess(a, b) && RevisionLess(b, c) ==> RevisionLess(a, c)
    ensures RevisionLess(a, b) ==> !RevisionLess(b, a)
  {
    LessIrreflexive(a.name);
    if Less(a.name, b.name) && Less(b.name, c.name) { LessTransitive(a.name, b.name, c.name); }
    if Less(a.name, b.name) && Less(b.name, a.name) { LessTransitive(a.name, b.name, a.name); }
  }

  lemma RevisionLessTotal(a: ControllerRevision, b: ControllerRevision)
    requires a.name != b.name
    ensures RevisionLess(a, b) || RevisionLess(b, a)
  {
    LessTotal(a.name, b.name);
  }

  lemma NotLessTransitive(a: ControllerRevision, b: ControllerRevision, c: ControllerRevision)
    requires !RevisionLess(b, a) && !RevisionLess(c, b)
    ensures !RevisionLess(c, a)
  {
    if RevisionLess(c, a) {
      if a.name == b.name {
      } else {
        RevisionLessTotal(a, b);
        RevisionLessStrict(c, a, b);
      }
    }
  }

  ghost predicate Sorted(s: seq<ControllerRevision>) {
    forall i, j :: 0 <= i < j < |s| ==> !RevisionLess(s[j], s[i])
  }

  ghost predicate DistinctNames(s: seq<ControllerRevision>) {
    forall i, j :: 0 <= i < j < |s| ==> s[i].name != s[j].name
  }

  /** The listing `s` holds exactly the revisions of `revs`, each once. */
  ghost predicate Lists(s: seq<ControllerRevision>, revs: set<ControllerRevision>) {
    DistinctNames(s) && forall r :: r in s <==> r in revs
  }

  ghost predicate NamesApart(revs: set<ControllerRevision>) {
    forall a, b :: a in revs && b in revs && a.name == b.name ==> a == b
  }

  ghost predicate Greatest(m: ControllerRevision, revs: set<ControllerRevision>) {
    m in revs && forall r :: r in revs ==> !RevisionLess(m, r)
  }

  lemma GreatestExists(revs: set<ControllerRevision>)
    requires revs != {}
    ensures exists m :: Greatest(m, revs)
  {
    var x :| x in revs;
    if revs == {x} {
      RevisionLessStrict(x, x, x);
      assert Greatest(x, revs);
    } else {
      GreatestExists(revs - {x});
      var m :| Greatest(m, revs - {x});
      if RevisionLess(m, x) {
        forall r | r in revs ensures !RevisionLess(x, r) {
          if r != x { RevisionLessStrict(m, x, r); }
          RevisionLessStrict(x, x, x);
        }
        assert Greatest(x, revs);
      } else {
        assert Greatest(m, revs);
      }
    }
  }

  lemma GreatestUnique(a: ControllerRevision, b: ControllerRevision, revs: set<ControllerRevision>)
    requires NamesApart(revs) && Greatest(a, revs) && Greatest(b, revs)
    ensures a == b
  {
    if a.name != b.name { RevisionLessTotal(a, b); }
  }

  /** The one ascending listing of a set of revisions with distinct names. */
  ghost function Ascending(revs: set<ControllerRevision>): (s: seq<ControllerRevision>)
    requires NamesApart(revs)
    ensures Sorted(s) && Lists(s, revs)
  {
    if revs == {} then []
    else
      GreatestExists(revs);
      var m :| Greatest(m, revs);
      var rest := Ascending(revs - {m});
      var s := rest + [m];
      assert forall r :: r in s <==> r in revs;
      s
  }

  lemma LastIsGreatest(s: seq<ControllerRevision>, revs: set<ControllerRevision>)
    requires Sorted(s) && Lists(s, revs) && s != []
    ensures Greatest(s[|s| - 1], revs)
  {
    var last := s[|s| - 1];
    forall r | r in revs ensures !RevisionLess(last, r) {
      var i :| 0 <= i < |s| && s[i] == r;
      RevisionLessStrict(r, r, r);
    }
  }

  lemma ListsNamesApart(s: seq<ControllerRevision>, revs: set<ControllerRevision>)
    requires Lists(s, revs)
    ensures NamesApart(revs)
  {
    forall a, b | a in revs && b in revs && a.name == b.name ensures a == b {
      var i :| 0 <= i < |s| && s[i] == a;
      var j :| 0 <= j < |s| && s[j] == b;
    }
  }

  lemma {:induction false} ListsSize(s: seq<ControllerRevision>, revs: set<ControllerRevision>)
    requires Lists(s, revs)
    ensures |s| == |revs|
  {
    if s == [] {
      assert revs == {};
    } else {
      var front, last := s[..|s| - 1], s[|s| - 1];
      assert s == front + [last];
      ListsSize(front, revs - {last});
    }
  }

  lemma DropLast(s: seq<ControllerRevision>, revs: set<ControllerRevision>)
    requires Sorted(s) && Lists(s, revs) && s != []
    ensures Sorted(s[..|s| - 1]) && Lists(s[..|s| - 1], revs - {s[|s| - 1]})
  {
    var front, last := s[..|s| - 1], s[|s| - 1];
    assert s == front + [last];
    assert forall r :: r in front ==> r.name != last.name;
  }

  /** Sorting is deterministic: two ascending listings of the same revisions are the same list. */
  lemma {:induction false} SortedUnique(
    s: seq<ControllerRevision>, t: seq<ControllerRevision>, revs: set<ControllerRevision>)
    requires Sorted(s) && Sorted(t) && Lists(s, revs) && Lists(t, revs)
    ensures s == t
  {
    ListsSize(s, revs);
    ListsSize(t, revs);
    if s == [] {
    } else {
      ListsNamesApart(s, revs);
      LastIsGreatest(s, revs);
      LastIsGreatest(t, revs);
      GreatestUnique(s[|s| - 1], t[|t| - 1], revs);
      DropLast(s, revs);
      DropLast(t, revs);
      SortedUnique(s[..|s| - 1], t[..|t| - 1], revs - {s[|s| - 1]});
      assert s == s[..|s| - 1] + [s[|s| - 1]] && t == t[..|t| - 1] + [t[|t| - 1]];
    }
  }

  /* ---- sort.Stable on the slice, through Less and Swap ---- */

  twostate predicate Permuted(a: array<ControllerRevision>)
    reads a
  {
    && multiset(a[..]) == multiset(old(a[..]))
    && (DistinctNames(old(a[..])) ==> DistinctNames(a[..]))
  }

  lemma SwapKeepsDistinct(s: seq<ControllerRevision>, i: nat, j: nat)
    requires i < |s| && j < |s|
    ensures DistinctNames(s) ==> DistinctNames(s[i := s[j]][j := s[i]])
  {
  }

  /** Sorts in place: ascending, a permutation of what was there, and names stay distinct. */
  method SortStable(a: array<ControllerRevision>)
    modifies a
    ensures Sorted(a[..])
    ensures Permuted(a)
  {
    for i := 0 to a.Length
      invariant Sorted(a[..i])
      invariant Permuted(a)
    {
      var j := i;
      while j > 0 && RevisionLess(a[j], a[j - 1])
        invariant 0 <= j <= i
        invariant forall p, q :: 0 <= p < q <= i && q != j ==> !RevisionLess(a[q], a[p])
        invariant Permuted(a)
      {
        RevisionLessStrict(a[j], a[j - 1], a[j]);
        SwapKeepsDistinct(a[..], j, j - 1);
        Swap(a, j, j - 1);
        j := j - 1;
      }
      forall p | 0 <= p < j ensures !RevisionLess(a[j], a[p]) {
        if p < j - 1 { NotLessTransitive(a[p], a[j - 1], a[j]); }
      }
    }
    assert a[..a.Length] == a[..];
  }

  /* ---- IsEqual and FindEqual ---- */

  /** A hash label read as Go's uint32(ParseInt(label, 10, 32)), when it parses. */
  function LabelHash(text: string): Option<int> {
    match ParseInt32(text)
    case None => None
    case Some(n) => Some(if n < 0 then n + 0x1_0000_0000 else n)
  }

  /** A negative label wraps around to 32 bits without a sign. */
  lemma LabelHashWraps(n: int)
    ensures 0 <= n < 0x8000_0000 ==> LabelHash(Itoa(n)) == Some(n)
    ensures -0x8000_0000 <= n < 0 ==> LabelHash(Itoa(n)) == Some(0x1_0000_0000 + n)
    ensures n < -0x8000_0000 || n >= 0x8000_0000 ==> LabelHash(Itoa(n)) == None
  {
    ParseItoa(n);
  }

  predicate LabelsClash(a: string, b: string) {
    LabelHash(a).Some? && LabelHash(b).Some? && LabelHash(a) != LabelHash(b)
  }

  function HashOf(r: ControllerRevision): Option<int> {
    if HASH_LABEL in r.labels then LabelHash(r.labels[HASH_LABEL]) else None
  }

  /** Both labels parse, to different numbers. */
  predicate HashesClash(a: ControllerRevision, b: ControllerRevision) {
    HashOf(a).Some? && HashOf(b).Some? && HashOf(a) != HashOf(b)
  }

  predicate IsEqual(a: ControllerRevision, b: ControllerRevision) {
    if HashesClash(a, b) then false else a.raw == b.raw
  }

  /** IsEqual is not transitive; along a chain it carries over exactly when the two ends' labels do not clash,
      which a parsing label in the middle rules out. */
  lemma IsEqualChain(a: ControllerRevision, b: ControllerRevision, c: ControllerRevision)
    requires IsEqual(a, b) && IsEqual(b, c)
    ensures a.raw == c.raw
    ensures IsEqual(a, c) <==> !HashesClash(a, c)
    ensures HashOf(b).Some? ==> IsEqual(a, c)
  {
  }

  /** The raw bytes agree all along the chain, yet the ends compare as different. */
  lemma IsEqualNotTransitive() returns (a: ControllerRevision, b: ControllerRevision, c: ControllerRevision)
    ensures IsEqual(a, b) && IsEqual(b, c) && a.raw == c.raw && !IsEqual(a, c)
  {
    a := ControllerRevision("a", map[HASH_LABEL := "4"], None, "data", 1, 0);
    b := ControllerRevision("b", map[HASH_LABEL := "x"], None, "data", 2, 0);
    c := ControllerRevision("c", map[HASH_LABEL := "5"], None, "data", 3, 0);
    assert "4"[..0] == [] && "5"[..0] == [];
    assert DigitsValue("4") == 4 && DigitsValue("5") == 5;
    assert !IsDigit("x"[0]);
  }

  ghost function EqualsOf(s: seq<ControllerRevision>, needle: ControllerRevision): (eq: seq<ControllerRevision>)
    ensures forall r :: r in eq <==> r in s && IsEqual(r, needle)
    ensures |eq| <= |s|
  {
    if s == [] then []
    else
      var front, last := s[..|s| - 1], s[|s| - 1];
      assert s == front + [last];
      EqualsOf(front, needle) + if IsEqual(last, needle) then [last] else []
  }

  lemma {:induction false} EqualsSorted(s: seq<ControllerRevision>, needle: ControllerRevision)
    requires Sorted(s)
    ensures Sorted(EqualsOf(s, needle))
  {
    if s != [] {
      var front, last := s[..|s| - 1], s[|s| - 1];
      EqualsSorted(front, needle);
      assert forall r :: r in EqualsOf(front, needle) ==> r in front && !RevisionLess(last, r);
    }
  }

  method FindEqual(s: seq<ControllerRevision>, needle: ControllerRevision) returns (eq: seq<ControllerRevision>)
    ensures eq == EqualsOf(s, needle)
  {
    eq := [];
    for i := 0 to |s|
      invariant eq == EqualsOf(s[..i], needle)
    {
      assert s[..i + 1][..i] == s[..i];
      if IsEqual(s[i], needle) { eq := eq + [s[i]]; }
    }
    assert s[..|s|] == s;
  }

  function NextNumber(s: seq<ControllerRevision>): int {
    if |s| <= 0 then 1 else s[|s| - 1].number + 1
  }
}
