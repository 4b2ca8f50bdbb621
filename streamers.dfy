/** The tracked account, the two rankings of a roster, the case-insensitive membership
    operations and the weighted activity score (package `streamers`). */
module Streamers {
  import opened Text

  /** One tracked account. `thirtyDayStats` is the weighted hours of the last 30 days;
      `wasInactive` marks a record carried over from the inactive roster. */
  datatype Streamer = Streamer(
    name: string,
    ytUrl: string,
    sullyGnomeId: string,
    thirtyDayStats: real,
    lang: string,
    wasInactive: bool)

  /** A record as a CSV line yields it: a name and a url, every other field at its zero value. */
  function Record(name: string, ytUrl: string): Streamer {
    Streamer(name, ytUrl, "", 0.0, "", false)
  }

  /** The two orderings: `ByStats` is `StreamerList.Less` (more hours first), `ByName` is the
      comparison `SortByName` hands to `sort.SliceStable` (lower-cased names, byte order). */
  datatype Order = ByStats | ByName

  predicate Precedes(o: Order, a: Streamer, b: Streamer) {
    match o
    case ByStats => a.thirtyDayStats > b.thirtyDayStats
    case ByName => LexLess(ToLower(a.name), ToLower(b.name))
  }

  /** Neither record precedes the other: equal hours, or names equal ignoring case. */
  predicate SameRank(o: Order, a: Streamer, b: Streamer) {
    !Precedes(o, a, b) && !Precedes(o, b, a)
  }

  ghost predicate SortedBy(o: Order, s: seq<Streamer>) {
    forall i, j :: 0 <= i < j < |s| ==> !Precedes(o, s[j], s[i])
  }

  lemma PrecedesIrreflexive(o: Order, a: Streamer)
    ensures !Precedes(o, a, a)
  {
    LexLessIrreflexive(ToLower(a.name));
  }

  lemma PrecedesAsymmetric(o: Order, a: Streamer, b: Streamer)
    requires Precedes(o, a, b)
    ensures !Precedes(o, b, a)
  {
    if o == ByName {
      LexLessIrreflexive(ToLower(a.name));
      if Precedes(o, b, a) {
        LexLessTransitive(ToLower(a.name), ToLower(b.name), ToLower(a.name));
      }
    }
  }

  /** "Not after" is transitive: the property insertion sort needs of a comparison. */
  lemma NotPrecedesTransitive(o: Order, a: Streamer, b: Streamer, c: Streamer)
    requires !Precedes(o, b, a) && !Precedes(o, c, b)
    ensures !Precedes(o, c, a)
  {
    if o == ByName {
      var ka, kb, kc := ToLower(a.name), ToLower(b.name), ToLower(c.name);
      LexLessTotal(ka, kb);
      LexLessTotal(kb, kc);
      LexLessIrreflexive(ka);
      if LexLess(kc, ka) {
        if LexLess(ka, kb) {
          LexLessTransitive(kc, ka, kb);
          if LexLess(kb, kc) {
            LexLessTransitive(kc, kb, kc);
            LexLessIrreflexive(kc);
          }
        } else if LexLess(kb, kc) {
          LexLessTransitive(kb, kc, ka);
        }
      }
    }
  }

  /** Names rank the same exactly when `strings.EqualFold` holds of them. */
  lemma SameRankByName(a: Streamer, b: Streamer)
    ensures SameRank(ByName, a, b) <==> EqualFold(a.name, b.name)
  {
    LexLessTotal(ToLower(a.name), ToLower(b.name));
    LexLessIrreflexive(ToLower(a.name));
  }

  /** Moves `x` leftwards past every trailing element it precedes, as an insertion step does. */
  function Insert(o: Order, t: seq<Streamer>, x: Streamer): (r: seq<Streamer>)
    ensures |r| == |t| + 1
  {
    if t == [] || !Precedes(o, x, t[|t| - 1]) then t + [x]
    else Insert(o, t[..|t| - 1], x) + [t[|t| - 1]]
  }

  /** The stable sort of `s` under `o` (insertion sort). */
  function Ranked(o: Order, s: seq<Streamer>): (r: seq<Streamer>)
    ensures |r| == |s|
  {
    if s == [] then [] else Insert(o, Ranked(o, s[..|s| - 1]), s[|s| - 1])
  }

  lemma {:induction false} InsertPermutation(o: Order, t: seq<Streamer>, x: Streamer)
    ensures multiset(Insert(o, t, x)) == multiset(t) + multiset{x}
  {
    if t != [] && Precedes(o, x, t[|t| - 1]) {
      InsertPermutation(o, t[..|t| - 1], x);
      assert t == t[..|t| - 1] + [t[|t| - 1]];
    }
  }

  lemma {:induction false} InsertSorted(o: Order, t: seq<Streamer>, x: Streamer)
    requires SortedBy(o, t)
    ensures SortedBy(o, Insert(o, t, x))
  {
    if t == [] || !Precedes(o, x, t[|t| - 1]) {
      forall i | 0 <= i < |t|
        ensures !Precedes(o, x, t[i])
      {
        if i < |t| - 1 {
          NotPrecedesTransitive(o, t[i], t[|t| - 1], x);
        }
      }
    } else {
      var init, last := t[..|t| - 1], t[|t| - 1];
      InsertSorted(o, init, x);
      InsertPermutation(o, init, x);
      var u := Insert(o, init, x);
      PrecedesAsymmetric(o, x, last);
      forall i | 0 <= i < |u|
        ensures !Precedes(o, last, u[i])
      {
        assert u[i] in multiset(u);
        assert u[i] == x || u[i] in init;
      }
    }
  }

  /** `Ranked` keeps exactly the records it was given. */
  lemma {:induction false} RankedPermutation(o: Order, s: seq<Streamer>)
    ensures multiset(Ranked(o, s)) == multiset(s)
  {
    if s != [] {
      RankedPermutation(o, s[..|s| - 1]);
      InsertPermutation(o, Ranked(o, s[..|s| - 1]), s[|s| - 1]);
      assert s == s[..|s| - 1] + [s[|s| - 1]];
    }
  }

  /** `Ranked` orders its result: no record comes after one it precedes. */
  lemma {:induction false} RankedSorted(o: Order, s: seq<Streamer>)
    ensures SortedBy(o, Ranked(o, s))
  {
    if s != [] {
      RankedSorted(o, s[..|s| - 1]);
      InsertSorted(o, Ranked(o, s[..|s| - 1]), s[|s| - 1]);
    }
  }

  /** The records of `s` that rank the same as `y`, in their order in `s`. */
  function Peers(o: Order, s: seq<Streamer>, y: Streamer): seq<Streamer> {
    if s == [] then []
    else Peers(o, s[..|s| - 1], y) + (if SameRank(o, s[|s| - 1], y) then [s[|s| - 1]] else [])
  }

  lemma {:induction false} InsertPeers(o: Order, t: seq<Streamer>, x: Streamer, y: Streamer)
    ensures Peers(o, Insert(o, t, x), y) == Peers(o, t, y) + (if SameRank(o, x, y) then [x] else [])
  {
    if t == [] || !Precedes(o, x, t[|t| - 1]) {
      assert (t + [x])[..|t|] == t;
    } else {
      var init, last := t[..|t| - 1], t[|t| - 1];
      InsertPeers(o, init, x, y);
      var u := Insert(o, init, x);
      assert (u + [last])[..|u|] == u;
      if SameRank(o, x, y) && SameRank(o, last, y) {
        NotPrecedesTransitive(o, last, y, x);
      }
    }
  }

  /** `Ranked` is stable: the records of equal rank keep their relative order. */
  lemma {:induction false} RankedStable(o: Order, s: seq<Streamer>, y: Streamer)
    ensures Peers(o, Ranked(o, s), y) == Peers(o, s, y)
  {
    if s != [] {
      RankedStable(o, s[..|s| - 1], y);
      InsertPeers(o, Ranked(o, s[..|s| - 1]), s[|s| - 1], y);
    }
  }

  /** No two records of `s` rank the same. */
  predicate NoTies(o: Order, s: seq<Streamer>) {
    forall i, j :: 0 <= i < j < |s| ==> !SameRank(o, s[i], s[j])
  }

  /** Two sorted permutations without ties start with the same record. */
  lemma SortedHeads(o: Order, a: seq<Streamer>, b: seq<Streamer>)
    requires SortedBy(o, a) && SortedBy(o, b) && NoTies(o, a)
    requires multiset(a) == multiset(b) && a != []
    ensures b != [] && a[0] == b[0]
  {
    assert a[0] in multiset(b);
    assert b != [] && b[0] in multiset(a);
    PrecedesIrreflexive(o, a[0]);
  }

  lemma TailSorted(o: Order, a: seq<Streamer>)
    requires SortedBy(o, a) && NoTies(o, a) && a != []
    ensures SortedBy(o, a[1..]) && NoTies(o, a[1..])
  {
    assert forall k :: 0 <= k < |a| - 1 ==> a[1..][k] == a[k + 1];
  }

  lemma TailMultiset(a: seq<Streamer>, b: seq<Streamer>)
    requires a != [] && b != [] && a[0] == b[0]
    requires multiset(a) == multiset(b)
    ensures multiset(a[1..]) == multiset(b[1..])
  {
    assert a == [a[0]] + a[1..];
    assert b == [b[0]] + b[1..];
    calc {
      multiset(a[1..]);
      multiset([a[0]] + a[1..]) - multiset{a[0]};
      multiset(b) - multiset{b[0]};
      multiset([b[0]] + b[1..]) - multiset{b[0]};
      multiset(b[1..]);
    }
  }

  /** Without ties a roster has one ordering only: any two sorted permutations agree. */
  lemma {:induction false} SortedUnique(o: Order, a: seq<Streamer>, b: seq<Streamer>)
    requires SortedBy(o, a) && SortedBy(o, b) && NoTies(o, a)
    requires multiset(a) == multiset(b)
    ensures a == b
  {
    if a == [] {
      assert |b| == |multiset(b)| == 0;
    } else {
      SortedHeads(o, a, b);
      TailMultiset(a, b);
      TailSorted(o, a);
      assert SortedBy(o, b[1..]) by {
        assert forall k :: 0 <= k < |b| - 1 ==> b[1..][k] == b[k + 1];
      }
      SortedUnique(o, a[1..], b[1..]);
      assert a == [a[0]] + a[1..];
      assert b == [b[0]] + b[1..];
    }
  }

  /** The state of an insertion step with the moving entry `x` at position `j`. */
  lemma InsertingAt(o: Order, done: seq<Streamer>, x: Streamer, rest: seq<Streamer>, j: nat)
    requires j <= |done|
    ensures var s := done[..j] + [x] + done[j..] + rest;
      |s| == |done| + 1 + |rest| && s[j] == x && (j > 0 ==> s[j - 1] == done[j - 1])
      && (j == |done| ==> s == done + [x] + rest && Insert(o, done, x) == Insert(o, done[..j], x) + done[j..])
  {
    if j == |done| {
      assert done[..j] == done && done[j..] == [];
    }
  }

  /** Swapping `x` with the entry before it moves the insertion point one to the left. */
  lemma InsertingStep(o: Order, done: seq<Streamer>, x: Streamer, rest: seq<Streamer>, j: nat)
    requires 0 < j <= |done|
    requires Precedes(o, x, done[j - 1])
    ensures var s := done[..j] + [x] + done[j..] + rest;
      s[j := s[j - 1]][j - 1 := s[j]] == done[..j - 1] + [x] + done[j - 1..] + rest
    ensures Insert(o, done[..j], x) + done[j..] == Insert(o, done[..j - 1], x) + done[j - 1..]
  {
    var t := done[..j];
    assert t[..|t| - 1] == done[..j - 1] && t[|t| - 1] == done[j - 1];
    assert done[j - 1..] == [done[j - 1]] + done[j..];
    assert done[..j] == done[..j - 1] + [done[j - 1]];
  }

  /** When `x` precedes nothing before it, inserting it leaves it where it is. */
  lemma InsertingDone(o: Order, done: seq<Streamer>, x: Streamer, j: nat)
    requires j <= |done|
    requires j == 0 || !Precedes(o, x, done[j - 1])
    ensures Insert(o, done[..j], x) == done[..j] + [x]
  {
  }

  /** The state of the sort before entry `i` is inserted, and after. */
  lemma RankingAt(o: Order, input: seq<Streamer>, i: nat)
    requires i < |input|
    ensures var s := Ranked(o, input[..i]) + input[i..];
      s[..i] == Ranked(o, input[..i]) && s[i] == input[i] && s[i + 1..] == input[i + 1..]
      && Insert(o, s[..i], s[i]) + s[i + 1..] == Ranked(o, input[..i + 1]) + input[i + 1..]
  {
    assert input[..i + 1][..i] == input[..i];
  }

  /** The Go `StreamerList`: a slice of records reordered in place by the sort methods. */
  class StreamerList {
    var streamers: seq<Streamer>

    constructor (streamers: seq<Streamer>)
      ensures this.streamers == streamers
    {
      this.streamers := streamers;
    }

    /** `Swap`: exchanges two entries, everything else stays. */
    method Swap(i: nat, j: nat)
      requires i < |streamers| && j < |streamers|
      modifies this
      ensures streamers == old(streamers)[i := old(streamers)[j]][j := old(streamers)[i]]
    {
      streamers := streamers[i := streamers[j]][j := streamers[i]];
    }

    /** One insertion step: entry `i` moves left past the entries before it that it
        precedes, by adjacent swaps. */
    method InsertAt(o: Order, i: nat)
      requires i < |streamers|
      modifies this
      ensures streamers == Insert(o, old(streamers[..i]), old(streamers[i])) + old(streamers[i + 1..])
      ensures |streamers| == old(|streamers|)
    {
      ghost var done, x, rest := streamers[..i], streamers[i], streamers[i + 1..];
      InsertingAt(o, done, x, rest, i);
      var j := i;
      while j > 0 && Precedes(o, streamers[j], streamers[j - 1])
        invariant 0 <= j <= i == |done|
        invariant streamers == done[..j] + [x] + done[j..] + rest
        invariant Insert(o, done, x) == Insert(o, done[..j], x) + done[j..]
      {
        InsertingAt(o, done, x, rest, j);
        Swap(j, j - 1);
        InsertingStep(o, done, x, rest, j);
        j := j - 1;
      }
      InsertingDone(o, done, x, j);
    }

    /** Insertion sort through `Swap`: the prefix before `i` is the ranked prefix of the input. */
    method Rank(o: Order)
      modifies this
      ensures streamers == Ranked(o, old(streamers))
    {
      ghost var input := streamers;
      var i := 0;
      while i < |streamers|
        invariant |streamers| == |input| && 0 <= i <= |input|
        invariant streamers == Ranked(o, input[..i]) + input[i..]
        decreases |input| - i
      {
        RankingAt(o, input, i);
        InsertAt(o, i);
        i := i + 1;
      }
      assert input[..|input|] == input;
    }

    /** `Sort` (`sort.Sort` with `Less`): hours non-increasing, same records. Ties may come
        out in any order, since `sort.Sort` is not stable. */
    method Sort()
      modifies this
      ensures SortedBy(ByStats, streamers)
      ensures multiset(streamers) == multiset(old(streamers))
    {
      RankedSorted(ByStats, streamers);
      RankedPermutation(ByStats, streamers);
      Rank(ByStats);
    }

    /** `SortByName` (`sort.SliceStable` on lower-cased names). */
    method SortByName()
      modifies this
      ensures streamers == Ranked(ByName, old(streamers))
      ensures SortedBy(ByName, streamers)
      ensures multiset(streamers) == multiset(old(streamers))
    {
      RankedSorted(ByName, streamers);
      RankedPermutation(ByName, streamers);
      Rank(ByName);
    }
  }

  /** `ContainsStreamer`: some entry's name equals `s.name` ignoring case. */
  function ContainsStreamer(list: seq<Streamer>, s: Streamer): (found: bool)
    ensures found <==> exists k :: 0 <= k < |list| && EqualFold(list[k].name, s.name)
  {
    if list == [] then false
    else EqualFold(list[0].name, s.name) || ContainsStreamer(list[1..], s)
  }

  /** The entries whose names differ from `s.name` ignoring case, in their order. */
  function Without(list: seq<Streamer>, s: Streamer): seq<Streamer> {
    if list == [] then []
    else Without(list[..|list| - 1], s)
         + (if EqualFold(list[|list| - 1].name, s.name) then [] else [list[|list| - 1]])
  }

  /** `RemoveStreamer`: a new slice holding the entries that do not match `s`. */
  method RemoveStreamer(list: seq<Streamer>, s: Streamer) returns (filtered: seq<Streamer>)
    ensures filtered == Without(list, s)
  {
    filtered := [];
    for i := 0 to |list|
      invariant filtered == Without(list[..i], s)
    {
      assert list[..i + 1][..i] == list[..i];
      if !EqualFold(list[i].name, s.name) {
        filtered := filtered + [list[i]];
      }
    }
    assert list[..|list|] == list;
  }

  /** After removal nothing matches `s`, and every entry that did not match is still there. */
  lemma {:induction false} WithoutSpec(list: seq<Streamer>, s: Streamer)
    ensures !ContainsStreamer(Without(list, s), s)
    ensures forall e :: e in Without(list, s) <==> e in list && !EqualFold(e.name, s.name)
  {
    if list != [] {
      WithoutSpec(list[..|list| - 1], s);
      assert list == list[..|list| - 1] + [list[|list| - 1]];
    }
  }

  /** Removing a name that is not there leaves the list as it was. */
  lemma {:induction false} WithoutAbsent(list: seq<Streamer>, s: Streamer)
    requires !ContainsStreamer(list, s)
    ensures Without(list, s) == list
  {
    if list != [] {
      assert !EqualFold(list[|list| - 1].name, s.name);
      WithoutAbsent(list[..|list| - 1], s);
      assert list == list[..|list| - 1] + [list[|list| - 1]];
    }
  }

  /** The score of a bucket series: bucket i (from 0) weighs i + 1. */
  function WeightedSum(d: seq<real>): real {
    if d == [] then 0.0 else WeightedSum(d[..|d| - 1]) + d[|d| - 1] * (|d| as real)
  }

  /** The accumulation loop of `GetStats`. */
  method Score(d: seq<real>) returns (sum: real)
    ensures sum == WeightedSum(d)
  {
    sum := 0.0;
    for i := 0 to |d|
      invariant sum == WeightedSum(d[..i])
    {
      assert d[..i + 1][..i] == d[..i];
      sum := sum + d[i] * ((i + 1) as real);
    }
    assert d[..|d|] == d;
  }

  /** With no negative buckets the score is positive exactly when some bucket is. */
  lemma {:induction false} ScorePositive(d: seq<real>)
    requires forall i :: 0 <= i < |d| ==> d[i] >= 0.0
    ensures WeightedSum(d) >= 0.0
    ensures WeightedSum(d) > 0.0 <==> exists i :: 0 <= i < |d| && d[i] > 0.0
  {
    if d != [] {
      var init := d[..|d| - 1];
      ScorePositive(init);
      assert forall i :: 0 <= i < |init| ==> init[i] == d[i];
      assert d[|d| - 1] * (|d| as real) >= 0.0;
      assert d[|d| - 1] > 0.0 ==> d[|d| - 1] * (|d| as real) > 0.0;
    }
  }

  /** The series of the package test, `[0,1,2,3,0,0,0,0,0]`, scores 1*2 + 2*3 + 3*4 = 20. */
  lemma ScoreOfTestSeries()
    ensures WeightedSum([0.0, 1.0, 2.0, 3.0, 0.0, 0.0, 0.0, 0.0, 0.0]) == 20.0
  {
    var d := [0.0, 1.0, 2.0, 3.0, 0.0, 0.0, 0.0, 0.0, 0.0];
    assert d[..1][..0] == [] && WeightedSum(d[..1]) == 0.0;
    assert d[..2][..1] == d[..1] && WeightedSum(d[..2]) == 2.0;
    assert d[..3][..2] == d[..2] && WeightedSum(d[..3]) == 8.0;
    assert d[..4][..3] == d[..3] && WeightedSum(d[..4]) == 20.0;
    assert d[..5][..4] == d[..4] && WeightedSum(d[..5]) == 20.0;
    assert d[..6][..5] == d[..5] && WeightedSum(d[..6]) == 20.0;
    assert d[..7][..6] == d[..6] && WeightedSum(d[..7]) == 20.0;
    assert d[..8][..7] == d[..7] && WeightedSum(d[..8]) == 20.0;
    assert d[..9][..8] == d[..8];
    assert d[..9] == d;
  }
}
