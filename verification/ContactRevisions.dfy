/**
  The newest-first order of contact revisions: parsed instants first, then raw stamps, then writers. Which
  stamps parse, and to what instant, is a parameter.
 */
module ContactRevisions {
  import opened Common

  /** A revision as the comparator reads it; a missing stamp or writer reads as the empty string. */
  datatype Revision = Revision(timestamp: Option<string>, writerId: Option<string>)

  type Clock = string -> Option<int>

  function Stamp(r: Revision): string {
    if r.timestamp.Some? then r.timestamp.value else ""
  }

  function Writer(r: Revision): string {
    if r.writerId.Some? then r.writerId.value else ""
  }

  function Key(r: Revision): (string, string) {
    (Stamp(r), Writer(r))
  }

  /** The comparison of strings by their code units. */
  predicate Less(a: string, b: string) {
    b != "" && (a == "" || a[0] < b[0] || (a[0] == b[0] && Less(a[1..], b[1..])))
  }

  /** Negative when `first` goes before `second`. */
  function Compare(parse: Clock, first: Revision, second: Revision): int {
    var firstInstant, secondInstant := parse(Stamp(first)), parse(Stamp(second));
    if firstInstant.Some? && secondInstant.Some? && firstInstant != secondInstant then
      secondInstant.value - firstInstant.value
    else if Stamp(first) != Stamp(second) then
      if Less(Stamp(first), Stamp(second)) then 1 else -1
    else if Writer(first) == Writer(second) then 0
    else if Less(Writer(first), Writer(second)) then 1 else -1
  }

  lemma {:induction false} LessIsTotal(a: string, b: string)
    ensures a == b || Less(a, b) || Less(b, a)
    ensures !(Less(a, b) && Less(b, a)) && !Less(a, a)
  {
    if a != "" && b != "" {
      LessIsTotal(a[1..], b[1..]);
      assert a == [a[0]] + a[1..] && b == [b[0]] + b[1..];
    }
    if a != "" { LessIsTotal(a[1..], a[1..]); }
  }

  lemma {:induction false} LessIsTransitive(a: string, b: string, c: string)
    requires Less(a, b) && Less(b, c)
    ensures Less(a, c)
  {
    if a != "" && a[0] == b[0] && b[0] == c[0] { LessIsTransitive(a[1..], b[1..], c[1..]); }
  }

  /** `a` goes below `b` from place `i` on: it ends there, or holds the smaller unit. */
  ghost predicate FirstDiffer(a: string, b: string, i: int) {
    0 <= i <= |a| && i < |b| && a[..i] == b[..i] && (i < |a| ==> a[i] < b[i])
  }

  /** It is the lexical order of code units: a prefix, and so the empty string, goes below. */
  lemma {:induction false} LessReads(a: string, b: string)
    ensures Less(a, b) <==> exists i :: FirstDiffer(a, b, i)
  {
    if a == "" || b == "" {
      if b != "" { assert FirstDiffer(a, b, 0); }
    } else if a[0] != b[0] {
      if a[0] < b[0] { assert FirstDiffer(a, b, 0); }
      forall i | FirstDiffer(a, b, i) ensures a[0] < b[0] { assert i > 0 ==> a[..i][0] == b[..i][0]; }
    } else {
      LessReads(a[1..], b[1..]);
      if Less(a, b) {
        var i :| FirstDiffer(a[1..], b[1..], i);
        assert a[..i + 1] == [a[0]] + a[1..][..i] && b[..i + 1] == [b[0]] + b[1..][..i];
        assert FirstDiffer(a, b, i + 1);
      }
      forall i | FirstDiffer(a, b, i) ensures Less(a, b) {
        assert i > 0 && a[1..][..i - 1] == a[..i][1..] && b[1..][..i - 1] == b[..i][1..];
        assert FirstDiffer(a[1..], b[1..], i - 1);
      }
    }
  }

  /** Newest first: by instant where both parse and differ, else by raw stamp, else by writer; a missing one is empty. */
  lemma NewestFirst(parse: Clock, a: Revision, b: Revision)
    ensures
      var s := if a.timestamp.Some? then a.timestamp.value else "";
      var t := if b.timestamp.Some? then b.timestamp.value else "";
      var v := if a.writerId.Some? then a.writerId.value else "";
      var w := if b.writerId.Some? then b.writerId.value else "";
      Compare(parse, a, b) < 0 <==>
        if parse(s).Some? && parse(t).Some? && parse(s).value != parse(t).value then parse(s).value > parse(t).value
        else if s != t then Less(t, s)
        else Less(w, v)
  {
    LessIsTotal(Stamp(a), Stamp(b));
    LessIsTotal(Writer(a), Writer(b));
  }

  /** Two revisions compare equal exactly when stamp and writer agree, and swapping them turns the sign. */
  lemma CompareReads(parse: Clock, a: Revision, b: Revision)
    ensures Compare(parse, a, b) == 0 <==> Key(a) == Key(b)
    ensures Compare(parse, a, b) < 0 <==> Compare(parse, b, a) > 0
  {
    LessIsTotal(Stamp(a), Stamp(b));
    LessIsTotal(Writer(a), Writer(b));
  }

  predicate Before(parse: Clock, a: Revision, b: Revision) {
    Compare(parse, a, b) <= 0
  }

  ghost predicate Transitive(parse: Clock, among: set<Revision>) {
    forall a, b, c :: a in among && b in among && c in among && Before(parse, a, b) && Before(parse, b, c) ==>
      Before(parse, a, c)
  }

  /**
    An unparseable stamp that lies strictly between two parseable ones whose instants order them the other
    way: the three go round in a circle.
   */
  predicate Straddles(parse: Clock, newer: Revision, older: Revision, u: Revision) {
    && parse(Stamp(newer)).Some? && parse(Stamp(older)).Some? && parse(Stamp(u)).None?
    && parse(Stamp(newer)).value > parse(Stamp(older)).value
    && Less(Stamp(newer), Stamp(u)) && Less(Stamp(u), Stamp(older))
  }

  ghost predicate Straddled(parse: Clock, among: set<Revision>) {
    exists newer, older, u :: newer in among && older in among && u in among && Straddles(parse, newer, older, u)
  }

  predicate LexBefore(a: Revision, b: Revision) {
    Less(Stamp(b), Stamp(a)) || (Stamp(a) == Stamp(b) && !Less(Writer(a), Writer(b)))
  }

  /** Whether the comparator's first tier decides the pair. */
  predicate ByInstant(parse: Clock, a: Revision, b: Revision) {
    parse(Stamp(a)).Some? && parse(Stamp(b)).Some? && parse(Stamp(a)) != parse(Stamp(b))
  }

  lemma BeforeReads(parse: Clock, a: Revision, b: Revision)
    ensures Before(parse, a, b) <==>
      if ByInstant(parse, a, b) then parse(Stamp(a)).value > parse(Stamp(b)).value else LexBefore(a, b)
  {
    LessIsTotal(Stamp(a), Stamp(b));
    LessIsTotal(Writer(a), Writer(b));
  }

  lemma LexIsTransitive(a: Revision, b: Revision, c: Revision)
    requires LexBefore(a, b) && LexBefore(b, c)
    ensures LexBefore(a, c)
  {
    if Less(Stamp(b), Stamp(a)) && Less(Stamp(c), Stamp(b)) {
      LessIsTransitive(Stamp(c), Stamp(b), Stamp(a));
    } else if Stamp(a) == Stamp(b) == Stamp(c) {
      if Less(Writer(a), Writer(c)) {
        LessIsTotal(Writer(b), Writer(a));
        LessIsTotal(Writer(c), Writer(b));
        if Less(Writer(b), Writer(a)) { LessIsTransitive(Writer(b), Writer(a), Writer(c)); }
      }
    }
  }

  lemma LexIsTotal(a: Revision, b: Revision)
    ensures LexBefore(a, b) || LexBefore(b, a)
    ensures LexBefore(a, b) && LexBefore(b, a) ==> Key(a) == Key(b)
  {
    LessIsTotal(Stamp(a), Stamp(b));
    LessIsTotal(Writer(a), Writer(b));
  }

  /** The only way round a circle is an unparseable stamp between two parseable ones. */
  lemma CircleStraddles(parse: Clock, a: Revision, b: Revision, c: Revision)
    requires Before(parse, a, b) && Before(parse, b, c) && !Before(parse, a, c)
    ensures Straddles(parse, a, b, c) || Straddles(parse, b, c, a) || Straddles(parse, c, a, b)
  {
    BeforeReads(parse, a, b);
    BeforeReads(parse, b, c);
    BeforeReads(parse, a, c);
    BeforeReads(parse, c, a);
    LexIsTotal(a, b);
    LexIsTotal(b, c);
    LexIsTotal(a, c);
    LessIsTotal(Stamp(a), Stamp(b));
    LessIsTotal(Stamp(b), Stamp(c));
    LessIsTotal(Stamp(a), Stamp(c));
    if LexBefore(a, b) && LexBefore(b, c) { LexIsTransitive(a, b, c); }
    if LexBefore(b, c) && LexBefore(c, a) { LexIsTransitive(b, c, a); }
    if LexBefore(c, a) && LexBefore(a, b) { LexIsTransitive(c, a, b); }
  }

  /** Exactly when the comparator is transitive on a set of revisions. */
  lemma TransitiveIffNotStraddled(parse: Clock, among: set<Revision>)
    ensures Transitive(parse, among) <==> !Straddled(parse, among)
  {
    if Straddled(parse, among) {
      var newer, older, u :| newer in among && older in among && u in among && Straddles(parse, newer, older, u);
      BeforeReads(parse, newer, older);
      BeforeReads(parse, older, u);
      BeforeReads(parse, newer, u);
      LessIsTotal(Stamp(newer), Stamp(u));
      assert Before(parse, newer, older) && Before(parse, older, u) && !Before(parse, newer, u);
    } else if !Transitive(parse, among) {
      var a, b, c :| a in among && b in among && c in among
                     && Before(parse, a, b) && Before(parse, b, c) && !Before(parse, a, c);
      CircleStraddles(parse, a, b, c);
    }
  }

  /** Revisions whose stamps all parse, or none does, are totally preordered. */
  lemma UniformIsTransitive(parse: Clock, among: set<Revision>)
    requires (forall r :: r in among ==> parse(Stamp(r)).Some?) || (forall r :: r in among ==> parse(Stamp(r)).None?)
    ensures Transitive(parse, among)
  {
    TransitiveIffNotStraddled(parse, among);
  }

  /** Missing stamps do no harm: an empty string sorts below every stamp. */
  lemma MissingStampsAreHarmless(parse: Clock, among: set<Revision>)
    requires parse("").None?
    requires forall r :: r in among && r.timestamp.Some? && r.timestamp.value != "" ==> parse(r.timestamp.value).Some?
    ensures Transitive(parse, among)
  {
    TransitiveIffNotStraddled(parse, among);
  }

  lemma StraddledGoesRound(parse: Clock, newer: Revision, older: Revision, u: Revision)
    requires Straddles(parse, newer, older, u)
    ensures Compare(parse, newer, older) < 0 && Compare(parse, older, u) < 0 && Compare(parse, u, newer) < 0
    ensures !Transitive(parse, {newer, older, u})
  {
    LessIsTotal(Stamp(newer), Stamp(u));
    LessIsTotal(Stamp(u), Stamp(older));
    TransitiveIffNotStraddled(parse, {newer, older, u});
  }

  /** Three stamps no order can be made of: a year, an expanded year ten thousand years on, and a malformed one. */
  lemma AMixedTripleGoesRound(parse: Clock)
    requires parse("2024") == Some(1704067200000) && parse("+012024") == Some(317273587200000) && parse("-").None?
    ensures var newer, older, u := Revision(Some("+012024"), None), Revision(Some("2024"), None), Revision(Some("-"), None);
            && Compare(parse, newer, older) < 0 && Compare(parse, older, u) < 0 && Compare(parse, u, newer) < 0
            && !Transitive(parse, {newer, older, u})
  {
    assert "+012024"[0] < "-"[0] < "2024"[0];
    StraddledGoesRound(parse, Revision(Some("+012024"), None), Revision(Some("2024"), None), Revision(Some("-"), None));
  }

  /** What a sort guarantees of neighbours. */
  predicate Sorted(parse: Clock, s: seq<Revision>) {
    forall i :: 0 < i < |s| ==> Before(parse, s[i - 1], s[i])
  }

  function Keys(s: seq<Revision>): seq<(string, string)> {
    MapSeq(s, (x: Revision) => Key(x))
  }

  lemma {:induction false} FirstIsBeforeAll(parse: Clock, among: set<Revision>, s: seq<Revision>, i: nat)
    requires Transitive(parse, among) && Sorted(parse, s) && i < |s| && forall r :: r in s ==> r in among
    ensures Before(parse, s[0], s[i])
  {
    if i == 0 {
      CompareReads(parse, s[0], s[0]);
    } else {
      FirstIsBeforeAll(parse, among, s, i - 1);
      assert s[0] in among && s[i - 1] in among && s[i] in among;
    }
  }

  lemma KeyIsPresent(s: seq<Revision>, t: seq<Revision>)
    requires multiset(Keys(s)) == multiset(Keys(t)) && s != []
    ensures exists i :: 0 <= i < |t| && Key(t[i]) == Key(s[0])
  {
    assert Keys(s)[0] == Key(s[0]) && Keys(s)[0] in multiset(Keys(s));
    assert Keys(s)[0] in Keys(t);
  }

  lemma SameKeysCompareAlike(parse: Clock, a: Revision, b: Revision, c: Revision)
    requires Key(b) == Key(c)
    ensures Before(parse, a, b) <==> Before(parse, a, c)
    ensures Before(parse, b, a) <==> Before(parse, c, a)
  {
  }

  /** The heads of two sorted permutations agree. */
  lemma SameHead(parse: Clock, among: set<Revision>, s: seq<Revision>, t: seq<Revision>)
    requires Transitive(parse, among) && Sorted(parse, s) && Sorted(parse, t)
    requires (forall r :: r in s ==> r in among) && (forall r :: r in t ==> r in among)
    requires multiset(Keys(s)) == multiset(Keys(t)) && s != [] && t != []
    ensures Key(s[0]) == Key(t[0])
  {
    KeyIsPresent(s, t);
    KeyIsPresent(t, s);
    var i :| 0 <= i < |t| && Key(t[i]) == Key(s[0]);
    var j :| 0 <= j < |s| && Key(s[j]) == Key(t[0]);
    FirstIsBeforeAll(parse, among, t, i);
    FirstIsBeforeAll(parse, among, s, j);
    SameKeysCompareAlike(parse, t[0], t[i], s[0]);
    SameKeysCompareAlike(parse, s[0], s[j], t[0]);
    CompareReads(parse, s[0], t[0]);
  }

  lemma KeysBoth(a: seq<Revision>, b: seq<Revision>)
    ensures Keys(a + b) == Keys(a) + Keys(b)
    ensures multiset(Keys(a + b)) == multiset(Keys(a)) + multiset(Keys(b))
  {
  }

  function Without<T>(s: seq<T>, i: nat): seq<T>
    requires i < |s|
  {
    s[..i] + s[i + 1..]
  }

  lemma Rejoined<T>(s: seq<T>, i: nat)
    requires i < |s|
    ensures s == s[..i] + ([s[i]] + s[i + 1..])
    ensures multiset(Without(s, i)) == multiset(s) - multiset{s[i]}
  {
    assert s == s[..i] + [s[i]] + s[i + 1..];
    assert multiset(s) == multiset(s[..i]) + multiset{s[i]} + multiset(s[i + 1..]);
  }

  /** The keys of a list are those of one element and of the rest. */
  lemma KeysWithout(s: seq<Revision>, i: nat)
    requires i < |s|
    ensures multiset(Keys(s)) == multiset(Keys(Without(s, i))) + multiset{Key(s[i])}
  {
    Rejoined(s, i);
    KeysBoth(s[..i], s[i + 1..]);
    KeysBoth(s[..i], [s[i]] + s[i + 1..]);
    KeysBoth([s[i]], s[i + 1..]);
    assert Keys([s[i]]) == [Key(s[i])];
  }

  /**
    A history reads the same whichever backend served it: where the comparator is transitive, any two sorted
    arrangements of the same revisions have the same stamps and writers at every position.
   */
  lemma {:induction false} SortedAlike(parse: Clock, among: set<Revision>, s: seq<Revision>, t: seq<Revision>)
    requires Transitive(parse, among) && Sorted(parse, s) && Sorted(parse, t)
    requires (forall r :: r in s ==> r in among) && (forall r :: r in t ==> r in among)
    requires multiset(Keys(s)) == multiset(Keys(t))
    ensures Keys(s) == Keys(t)
    decreases |s|
  {
    assert |s| == |Keys(s)| == |multiset(Keys(s))| && |t| == |Keys(t)| == |multiset(Keys(t))|;
    if s != [] {
      SameHead(parse, among, s, t);
      KeysWithout(s, 0);
      KeysWithout(t, 0);
      Cancel(multiset(Keys(Without(s, 0))), multiset(Keys(Without(t, 0))), Key(s[0]));
      TailSorted(parse, s);
      TailSorted(parse, t);
      SortedAlike(parse, among, Without(s, 0), Without(t, 0));
      HeadAndTail(s);
      HeadAndTail(t);
    }
  }

  lemma Cancel<T>(a: multiset<T>, b: multiset<T>, x: T)
    requires a + multiset{x} == b + multiset{x}
    ensures a == b
  {
    assert a == (a + multiset{x}) - multiset{x};
  }

  lemma TailSorted(parse: Clock, s: seq<Revision>)
    requires s != [] && Sorted(parse, s)
    ensures Sorted(parse, Without(s, 0)) && forall r :: r in Without(s, 0) ==> r in s
  {
    assert Without(s, 0) == s[1..];
  }

  lemma HeadAndTail(s: seq<Revision>)
    requires s != []
    ensures Keys(s) == [Key(s[0])] + Keys(Without(s, 0))
  {
    assert Without(s, 0) == s[1..];
    assert Keys(s)[1..] == Keys(s[1..]);
  }

  /** A permutation of revisions has the same keys. */
  lemma {:induction false} PermutedKeys(s: seq<Revision>, t: seq<Revision>)
    requires multiset(s) == multiset(t)
    ensures multiset(Keys(s)) == multiset(Keys(t))
    decreases |s|
  {
    if s == [] {
      assert |t| == |multiset(t)| == |multiset(s)| == 0;
    } else {
      assert s[0] in multiset(s);
      var i := PlaceOf(t, s[0]);
      Rejoined(s, 0);
      Rejoined(t, i);
      PermutedKeys(Without(s, 0), Without(t, i));
      KeysWithout(s, 0);
      KeysWithout(t, i);
    }
  }

  /** Where an element of a permutation stands. */
  lemma PlaceOf<T>(t: seq<T>, x: T) returns (i: nat)
    requires x in multiset(t)
    ensures i < |t| && t[i] == x
  {
    assert x in t;
    i :| i < |t| && t[i] == x;
  }
}
