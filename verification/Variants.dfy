/** A/B experiments: which variant a decision key is given. */
module Variants {
  import opened Arithmetic
  import opened Options

  datatype Variant = Variant(id: string, model: string)
  datatype Experiment = Experiment(control: Option<Variant>, variants: seq<Variant>,
                                   trafficSplit: map<string, real>, active: bool)

  const BUCKETS := 10000

  // ----- order of ids -----

  predicate Less(a: string, b: string) {
    b != [] && (a == [] || a[0] < b[0] || (a[0] == b[0] && Less(a[1..], b[1..])))
  }

  lemma {:induction false} LessTotal(a: string, b: string)
    ensures a == b || Less(a, b) || Less(b, a)
    ensures !(Less(a, b) && Less(b, a)) && !Less(a, a)
  {
    if a != [] && b != [] && a[0] == b[0] {
      LessTotal(a[1..], b[1..]);
      if a[1..] == b[1..] {
        assert a == [a[0]] + a[1..] && b == [b[0]] + b[1..];
      }
    }
    if a != [] {
      LessIrreflexive(a);
    }
  }

  lemma {:induction false} LessIrreflexive(a: string)
    ensures !Less(a, a)
  {
    if a != [] {
      LessIrreflexive(a[1..]);
    }
  }

  lemma {:induction false} LessTransitive(a: string, b: string, c: string)
    requires Less(a, b) && Less(b, c)
    ensures Less(a, c)
  {
    if a != [] && a[0] == b[0] == c[0] {
      LessTransitive(a[1..], b[1..], c[1..]);
    }
  }

  // The order is that of a dictionary: by the first character that differs, and a beginning of a
  // text comes before it.
  lemma {:induction false} LessIsLexicographic(a: string, b: string)
    ensures Less(a, b) <==> exists k :: DiffersAt(a, b, k)
  {
    if b != [] && a != [] && a[0] == b[0] {
      LessIsLexicographic(a[1..], b[1..]);
      forall k: nat
        ensures DiffersAt(a[1..], b[1..], k) <==> DiffersAt(a, b, k + 1)
      {
        DiffersLater(a, b, k);
      }
      if Less(a, b) {
        var k: nat :| DiffersAt(a[1..], b[1..], k);
        assert DiffersAt(a, b, k + 1);
      }
      if exists k: nat :: DiffersAt(a, b, k) {
        var k: nat :| DiffersAt(a, b, k);
        assert k > 0;
        var j: nat := k - 1;
        assert DiffersAt(a[1..], b[1..], j);
      }
    } else if Less(a, b) {
      assert DiffersAt(a, b, 0);
    }
  }

  lemma DiffersLater(a: string, b: string, k: nat)
    requires a != [] && b != [] && a[0] == b[0]
    ensures DiffersAt(a[1..], b[1..], k) <==> DiffersAt(a, b, k + 1)
  {
    if k < |a| && k < |b| {
      assert a[..k + 1] == [a[0]] + a[1..][..k] && b[..k + 1] == [b[0]] + b[1..][..k];
    }
  }

  predicate DiffersAt(a: string, b: string, k: nat) {
    && k <= |a| && k < |b| && a[..k] == b[..k]
    && (k == |a| || a[k] < b[k])
  }

  // ----- the split as a list -----

  datatype Share = Share(id: string, traffic: real)

  predicate Sorted(shares: seq<Share>) {
    forall i, j :: 0 <= i < j < |shares| ==> Less(shares[i].id, shares[j].id)
  }

  // `shares` lists the entries of `split` and nothing else.
  ghost predicate Lists(shares: seq<Share>, split: map<string, real>) {
    && (forall s :: s in shares ==> s.id in split && split[s.id] == s.traffic)
    && (forall id :: id in split ==> Share(id, split[id]) in shares)
  }

  lemma EmptyListing(shares: seq<Share>, split: map<string, real>)
    requires Lists(shares, split)
    ensures shares == [] <==> split == map[]
  {
    if shares != [] {
      assert shares[0] in shares;
    } else {
      assert split.Keys == {};
    }
  }

  // Sorting leaves one order only, whatever order the map was walked in.
  lemma {:induction false} SortedIsUnique(a: seq<Share>, b: seq<Share>, split: map<string, real>)
    requires Sorted(a) && Sorted(b) && Lists(a, split) && Lists(b, split)
    ensures a == b
    decreases |a|
  {
    EmptyListing(a, split);
    EmptyListing(b, split);
    if a != [] {
      SameHead(a, b, split);
      TailLists(a, split);
      TailLists(b, split);
      SortedIsUnique(a[1..], b[1..], split - {a[0].id});
    }
  }

  lemma SameHead(a: seq<Share>, b: seq<Share>, split: map<string, real>)
    requires a != [] && b != [] && Sorted(a) && Sorted(b) && Lists(a, split) && Lists(b, split)
    ensures a[0] == b[0]
  {
    assert a[0] in a && b[0] in b;
    assert Share(a[0].id, split[a[0].id]) in b && Share(b[0].id, split[b[0].id]) in a;
    LessTotal(a[0].id, b[0].id);
  }

  lemma TailLists(a: seq<Share>, split: map<string, real>)
    requires a != [] && Sorted(a) && Lists(a, split)
    ensures Sorted(a[1..]) && Lists(a[1..], split - {a[0].id})
  {
    forall s | s in a[1..]
      ensures s in a && s.id != a[0].id
    {
      LessIrreflexive(a[0].id);
    }
    forall id | id in split && id != a[0].id
      ensures Share(id, split[id]) in a[1..]
    {
      var k :| 0 <= k < |a| && a[k] == Share(id, split[id]);
      assert a[1..][k - 1] == a[k];
    }
  }

  // ----- selection -----

  function FindVariant(variants: seq<Variant>, id: string): Option<Variant> {
    if variants == [] then None
    else if variants[0].id == id then Some(variants[0])
    else FindVariant(variants[1..], id)
  }

  function Known(e: Experiment, id: string): Option<Variant> {
    if e.control.Some? && e.control.value.id == id then e.control else FindVariant(e.variants, id)
  }

  // The variant found is the first of the list that has the id; none is found if none has it.
  lemma {:induction false} FoundIsFirst(variants: seq<Variant>, id: string)
    ensures var found := FindVariant(variants, id);
      && (found.None? <==> forall k :: 0 <= k < |variants| ==> variants[k].id != id)
      && (found.Some? ==> exists k :: 0 <= k < |variants| && IsFirst(variants, id, k) && variants[k] == found.value)
  {
    if variants != [] && variants[0].id != id {
      FoundIsFirst(variants[1..], id);
      if FindVariant(variants[1..], id).Some? {
        var k :| 0 <= k < |variants| - 1 && IsFirst(variants[1..], id, k)
                 && variants[1..][k] == FindVariant(variants, id).value;
        assert IsFirst(variants, id, k + 1) by {
          assert forall j :: 0 < j < |variants| ==> variants[j] == variants[1..][j - 1];
        }
      } else {
        assert forall j :: 0 < j < |variants| ==> variants[j] == variants[1..][j - 1];
      }
    } else if variants != [] {
      assert IsFirst(variants, id, 0);
    }
  }

  predicate IsFirst(variants: seq<Variant>, id: string, k: nat)
    requires k < |variants|
  {
    variants[k].id == id && forall j :: 0 <= j < k ==> variants[j].id != id
  }

  // The control is preferred to a variant of the same id.
  lemma KnownIsControlFirst(e: Experiment, id: string)
    ensures Known(e, id) ==
      if e.control.Some? && e.control.value.id == id then e.control else FindVariant(e.variants, id)
  {}

  function Cumulative(shares: seq<Share>, n: nat): real
    requires n <= |shares|
  {
    if n == 0 then 0.0 else Cumulative(shares, n - 1) + shares[n - 1].traffic
  }

  function Selection(bucket: nat): real {
    bucket as real / BUCKETS as real
  }

  // The first share from number `i` on that reaches past the bucket and is of a known variant.
  function SelectFrom(e: Experiment, shares: seq<Share>, bucket: nat, i: nat): Option<Variant>
    requires i <= |shares|
    decreases |shares| - i
  {
    if i == |shares| then e.control
    else if Selection(bucket) < Cumulative(shares, i + 1) && Known(e, shares[i].id).Some? then Known(e, shares[i].id)
    else SelectFrom(e, shares, bucket, i + 1)
  }

  predicate NonNegative(shares: seq<Share>) {
    forall i :: 0 <= i < |shares| ==> shares[i].traffic >= 0.0
  }

  predicate AllKnown(e: Experiment, shares: seq<Share>) {
    forall i :: 0 <= i < |shares| ==> Known(e, shares[i].id).Some?
  }

  // How far the first `n` shares reach; a negative share takes nothing back.
  function Reach(shares: seq<Share>, n: nat): real
    requires n <= |shares|
  {
    if n == 0 then 0.0 else Max(Reach(shares, n - 1), Cumulative(shares, n))
  }

  // Share number `i` covers the bucket.
  predicate Covers(shares: seq<Share>, i: nat, bucket: nat)
    requires i < |shares|
  {
    Reach(shares, i) <= Selection(bucket) < Reach(shares, i + 1)
  }

  lemma {:induction false} ReachGrows(shares: seq<Share>, i: nat, j: nat)
    requires i <= j <= |shares|
    ensures 0.0 <= Reach(shares, i) <= Reach(shares, j)
  {
    if i < j {
      ReachGrows(shares, i, j - 1);
    } else if i > 0 {
      ReachGrows(shares, i - 1, i - 1);
    }
  }

  lemma {:induction false} ReachIsCumulative(shares: seq<Share>, n: nat)
    requires NonNegative(shares) && n <= |shares|
    ensures Reach(shares, n) == Cumulative(shares, n) >= 0.0
  {
    if n > 0 {
      ReachIsCumulative(shares, n - 1);
    }
  }

  lemma {:induction false} SelectFromCovering(e: Experiment, shares: seq<Share>, bucket: nat, i: nat, k: nat)
    requires AllKnown(e, shares) && i <= k < |shares| && Covers(shares, k, bucket)
    ensures SelectFrom(e, shares, bucket, i) == Known(e, shares[k].id)
    decreases k - i
  {
    if i < k {
      ReachGrows(shares, i + 1, k);
      SelectFromCovering(e, shares, bucket, i + 1, k);
    }
  }

  lemma {:induction false} SelectFromNone(e: Experiment, shares: seq<Share>, bucket: nat, i: nat)
    requires i <= |shares| && Reach(shares, |shares|) <= Selection(bucket)
    ensures SelectFrom(e, shares, bucket, i) == e.control
    decreases |shares| - i
  {
    if i < |shares| {
      ReachGrows(shares, i + 1, |shares|);
      SelectFromNone(e, shares, bucket, i + 1);
    }
  }

  lemma {:induction false} SomeShareCovers(shares: seq<Share>, bucket: nat, n: nat) returns (k: nat)
    requires n <= |shares| && Selection(bucket) < Reach(shares, n)
    ensures k < n && Covers(shares, k, bucket)
  {
    if Selection(bucket) < Reach(shares, n - 1) {
      k := SomeShareCovers(shares, bucket, n - 1);
    } else {
      k := n - 1;
    }
  }

  // Every bucket within the reach of all shares is covered by exactly one of them.
  lemma CoveredOnce(shares: seq<Share>, bucket: nat)
    ensures Selection(bucket) < Reach(shares, |shares|) <==> exists k :: 0 <= k < |shares| && Covers(shares, k, bucket)
    ensures forall j, k :: 0 <= j < k < |shares| ==> !(Covers(shares, j, bucket) && Covers(shares, k, bucket))
  {
    if Selection(bucket) < Reach(shares, |shares|) {
      var k := SomeShareCovers(shares, bucket, |shares|);
    }
    forall k | 0 <= k < |shares| && Covers(shares, k, bucket)
      ensures Selection(bucket) < Reach(shares, |shares|)
    {
      ReachGrows(shares, k + 1, |shares|);
    }
    forall j, k | 0 <= j < k < |shares|
      ensures !(Covers(shares, j, bucket) && Covers(shares, k, bucket))
    {
      ReachGrows(shares, j + 1, k);
    }
  }

  // A bucket is given the variant of the one share that covers it, and the control if none does.
  lemma SelectionIsCoverage(e: Experiment, shares: seq<Share>, bucket: nat)
    requires AllKnown(e, shares)
    ensures forall k :: 0 <= k < |shares| && Covers(shares, k, bucket) ==>
      SelectFrom(e, shares, bucket, 0) == Known(e, shares[k].id)
    ensures (forall k :: 0 <= k < |shares| ==> !Covers(shares, k, bucket)) ==>
      SelectFrom(e, shares, bucket, 0) == e.control
  {
    CoveredOnce(shares, bucket);
    forall k | 0 <= k < |shares| && Covers(shares, k, bucket)
      ensures SelectFrom(e, shares, bucket, 0) == Known(e, shares[k].id)
    {
      SelectFromCovering(e, shares, bucket, 0, k);
    }
    if Selection(bucket) >= Reach(shares, |shares|) {
      SelectFromNone(e, shares, bucket, 0);
    }
  }

  // Whether the variants are known or not and the shares negative or not: a bucket is given the
  // known variant of the first share up to which they add up to more than its ten-thousandth part,
  // and the control if there is none.
  lemma {:induction false} SelectionIsFirst(e: Experiment, shares: seq<Share>, bucket: nat, i: nat)
    requires i <= |shares|
    ensures
      var selected := SelectFrom(e, shares, bucket, i);
      || (exists k :: i <= k < |shares| && Selects(e, shares, bucket, k) && selected == Known(e, shares[k].id)
                      && forall j :: i <= j < k ==> !Selects(e, shares, bucket, j))
      || (selected == e.control && forall j :: i <= j < |shares| ==> !Selects(e, shares, bucket, j))
    decreases |shares| - i
  {
    if i < |shares| {
      if Selects(e, shares, bucket, i) {
        assert SelectFrom(e, shares, bucket, i) == Known(e, shares[i].id);
      } else {
        SelectionIsFirst(e, shares, bucket, i + 1);
      }
    }
  }

  predicate Selects(e: Experiment, shares: seq<Share>, bucket: nat, k: nat)
    requires k < |shares|
  {
    bucket as real < Cumulative(shares, k + 1) * 10000.0 && Known(e, shares[k].id).Some?
  }

  // ----- how many buckets -----

  // Of the first `n` buckets, those that share number `i` covers.
  function Count(shares: seq<Share>, i: nat, n: nat): nat
    requires i < |shares|
    decreases n, shares
  {
    if n == 0 then 0 else Count(shares, i, n - 1) + if Covers(shares, i, n - 1) then 1 else 0
  }

  // Of the first `n` buckets, those whose selection is below `x`.
  function Below(x: real, n: nat): nat
    decreases n, x
  {
    if n == 0 then 0 else Below(x, n - 1) + if Selection(n - 1) < x then 1 else 0
  }

  lemma {:induction false} CountIsBelow(shares: seq<Share>, i: nat, n: nat)
    requires i < |shares|
    ensures Count(shares, i, n) == Below(Reach(shares, i + 1), n) - Below(Reach(shares, i), n)
  {
    if n > 0 {
      CountIsBelow(shares, i, n - 1);
    }
  }

  // `count` is 10000 x, rounded up, or `n` if that is less.
  predicate RoundedUp(x: real, count: nat, n: nat) {
    && count <= n
    && (count < n ==> Buckets(x) <= count as real)
    && count as real < Buckets(x) + 1.0
  }

  // Below `x` lie the buckets 0 .. 10000 x, rounded up, as long as there are that many.
  lemma {:induction false} BelowIsRoundedUp(x: real, n: nat)
    requires x >= 0.0
    ensures RoundedUp(x, Below(x, n), n)
  {
    if n > 0 {
      BelowIsRoundedUp(x, n - 1);
      assert Selection(n - 1) < x <==> (n - 1) as real < Buckets(x);
    }
  }

  // The fair number of buckets for a part of the traffic.
  function Buckets(traffic: real): real {
    traffic * 10000.0
  }

  predicate WithinOne(count: int, traffic: real) {
    -1.0 < count as real - Buckets(traffic) < 1.0
  }

  // Share number `i` ends at 1 or before, or so little beyond that what it loses there, and by
  // the rounding up of the place where it starts, is less than a bucket.
  predicate EndsInTime(shares: seq<Share>, i: nat)
    requires i < |shares|
  {
    var start, end := Cumulative(shares, i), Cumulative(shares, i + 1);
    end <= 1.0 || Buckets(end - 1.0) + (Below(start, BUCKETS) as real - Buckets(start)) < 1.0
  }

  lemma RoundingIsFair(start: real, end: real, before: nat, upTo: nat)
    requires 0.0 <= start <= end && RoundedUp(start, before, BUCKETS) && RoundedUp(end, upTo, BUCKETS)
    ensures WithinOne(upTo - before, end - start) <==>
      end <= 1.0 || Buckets(end - 1.0) + (before as real - Buckets(start)) < 1.0
  {}

  // Allocation. Of non-negative shares each covers a number of the 10000 buckets that is less
  // than one away from 10000 times its traffic, exactly if it ends in time.
  lemma AllocationIsFair(shares: seq<Share>, i: nat)
    requires NonNegative(shares) && i < |shares|
    ensures WithinOne(Count(shares, i, BUCKETS), shares[i].traffic) <==> EndsInTime(shares, i)
  {
    var start, end := Cumulative(shares, i), Cumulative(shares, i + 1);
    ReachIsCumulative(shares, i);
    ReachIsCumulative(shares, i + 1);
    CountIsBelow(shares, i, BUCKETS);
    BelowIsRoundedUp(start, BUCKETS);
    BelowIsRoundedUp(end, BUCKETS);
    RoundingIsFair(start, end, Below(start, BUCKETS), Below(end, BUCKETS));
  }

  // Shares that add up to at most 1 all end in time.
  lemma SharesWithinOne(shares: seq<Share>, i: nat)
    requires NonNegative(shares) && i < |shares| && Cumulative(shares, |shares|) <= 1.0
    ensures EndsInTime(shares, i)
  {
    ReachIsCumulative(shares, i + 1);
    ReachIsCumulative(shares, |shares|);
    ReachGrows(shares, i + 1, |shares|);
  }

  // A split is accepted up to a total of 1.01, and then some shares need not end in time: of 0.5
  // and 0.505 the second lacks 50 of its 5050 buckets.
  lemma AcceptedSplitIsUnfair()
    ensures var shares := [Share("a", 0.5), Share("b", 0.505)];
      && Sorted(shares) && NonNegative(shares) && 0.99 <= Cumulative(shares, |shares|) <= 1.01
      && Count(shares, 1, BUCKETS) == 5000 && !WithinOne(Count(shares, 1, BUCKETS), 0.505)
  {
    var shares := [Share("a", 0.5), Share("b", 0.505)];
    TwoShares(shares, 0.5, 0.505);
    CountIsBelow(shares, 1, BUCKETS);
    BelowIsRoundedUp(0.5, BUCKETS);
    BelowIsRoundedUp(1.005, BUCKETS);
  }

  lemma {:induction false} FoundHasId(variants: seq<Variant>, id: string)
    ensures FindVariant(variants, id).Some? ==> FindVariant(variants, id).value.id == id
  {
    if variants != [] {
      FoundHasId(variants[1..], id);
    }
  }

  // Of the first `n` buckets, those given the variant of share number `i`.
  function Given(e: Experiment, shares: seq<Share>, i: nat, n: nat): nat
    requires i < |shares|
    decreases n, shares
  {
    if n == 0 then 0
    else Given(e, shares, i, n - 1) + if SelectFrom(e, shares, n - 1, 0) == Known(e, shares[i].id) then 1 else 0
  }

  // Of the first `n` buckets, those that no share covers.
  function Uncovered(shares: seq<Share>, n: nat): nat
    decreases n, shares
  {
    if n == 0 then 0 else Uncovered(shares, n - 1) + if Selection(n - 1) < Reach(shares, |shares|) then 0 else 1
  }

  predicate IsControl(e: Experiment, id: string) {
    e.control.Some? && e.control.value.id == id
  }

  // A bucket is given to the variant whose share covers it, or to the control if none does.
  lemma SelectedIfCovered(e: Experiment, shares: seq<Share>, i: nat, bucket: nat)
    requires Sorted(shares) && AllKnown(e, shares) && i < |shares|
    ensures SelectFrom(e, shares, bucket, 0) == Known(e, shares[i].id) <==>
      Covers(shares, i, bucket) || (IsControl(e, shares[i].id) && Selection(bucket) >= Reach(shares, |shares|))
  {
    SelectionIsCoverage(e, shares, bucket);
    CoveredOnce(shares, bucket);
    FoundHasId(e.variants, shares[i].id);
    if Selection(bucket) < Reach(shares, |shares|) {
      var k :| 0 <= k < |shares| && Covers(shares, k, bucket);
      FoundHasId(e.variants, shares[k].id);
      LessIrreflexive(shares[i].id);
    }
  }

  // A variant is given the buckets its share covers; the control is given the uncovered ones on
  // top of its own.
  lemma {:induction false} GivenIsCount(e: Experiment, shares: seq<Share>, i: nat, n: nat)
    requires Sorted(shares) && AllKnown(e, shares) && i < |shares|
    ensures Given(e, shares, i, n) ==
      Count(shares, i, n) + if IsControl(e, shares[i].id) then Uncovered(shares, n) else 0
  {
    if n > 0 {
      GivenIsCount(e, shares, i, n - 1);
      SelectedIfCovered(e, shares, i, n - 1);
      ReachGrows(shares, i + 1, |shares|);
    }
  }

  // What `x` gains by being rounded up to whole buckets.
  function RoundingUp(x: real): real {
    Below(x, BUCKETS) as real - Buckets(x)
  }

  // The uncovered buckets, the rounding up of the end of share number `i` and that of its start
  // come to less than one bucket. (Then none is uncovered, unless the two ends make up for it.)
  predicate LittleIsLeft(shares: seq<Share>, i: nat)
    requires i < |shares|
  {
    var start, end, total := Cumulative(shares, i), Cumulative(shares, i + 1), Cumulative(shares, |shares|);
    (BUCKETS - Below(total, BUCKETS)) as real + RoundingUp(end) - RoundingUp(start) < 1.0
  }

  // With every variant known and shares that are not negative, a variant is given less than one
  // bucket more or fewer than 10000 times its traffic exactly if its share ends in time and, for
  // the control of a split that adds up to less than 1, little is left to be given to it.
  lemma EachVariantGetsItsShare(e: Experiment, shares: seq<Share>, i: nat)
    requires Sorted(shares) && Lists(shares, e.trafficSplit) && i < |shares|
    requires NonNegative(shares) && AllKnown(e, shares)
    ensures WithinOne(Given(e, shares, i, BUCKETS), e.trafficSplit[shares[i].id]) <==>
      if IsControl(e, shares[i].id) && Cumulative(shares, |shares|) < 1.0 then LittleIsLeft(shares, i)
      else EndsInTime(shares, i)
  {
    assert shares[i] in shares;
    GivenIsCount(e, shares, i, BUCKETS);
    AllocationIsFair(shares, i);
    UncoveredIsRest(shares, BUCKETS);
    ReachIsCumulative(shares, |shares|);
    BelowIsRoundedUp(Cumulative(shares, |shares|), BUCKETS);
    if IsControl(e, shares[i].id) && Cumulative(shares, |shares|) < 1.0 {
      ControlIsFair(shares, i, Count(shares, i, BUCKETS) + Uncovered(shares, BUCKETS));
    }
  }

  lemma ControlIsFair(shares: seq<Share>, i: nat, given: nat)
    requires NonNegative(shares) && i < |shares| && Cumulative(shares, |shares|) < 1.0
    requires given == Count(shares, i, BUCKETS) + Uncovered(shares, BUCKETS)
    ensures WithinOne(given, shares[i].traffic) <==> LittleIsLeft(shares, i)
  {
    var start, end, total := Cumulative(shares, i), Cumulative(shares, i + 1), Cumulative(shares, |shares|);
    EndsInOrder(shares, i);
    CountAndRest(shares, i);
    BelowIsRoundedUp(start, BUCKETS);
    BelowIsRoundedUp(end, BUCKETS);
    RestIsFair(start, end, Below(start, BUCKETS), Below(end, BUCKETS), Uncovered(shares, BUCKETS));
  }

  lemma EndsInOrder(shares: seq<Share>, i: nat)
    requires NonNegative(shares) && i < |shares|
    ensures 0.0 <= Cumulative(shares, i) <= Cumulative(shares, i + 1) <= Cumulative(shares, |shares|)
  {
    ReachIsCumulative(shares, i);
    ReachIsCumulative(shares, i + 1);
    ReachIsCumulative(shares, |shares|);
    ReachGrows(shares, i, i + 1);
    ReachGrows(shares, i + 1, |shares|);
  }

  lemma CountAndRest(shares: seq<Share>, i: nat)
    requires NonNegative(shares) && i < |shares|
    ensures Count(shares, i, BUCKETS) ==
      Below(Cumulative(shares, i + 1), BUCKETS) - Below(Cumulative(shares, i), BUCKETS)
    ensures Uncovered(shares, BUCKETS) == BUCKETS - Below(Cumulative(shares, |shares|), BUCKETS)
  {
    ReachIsCumulative(shares, i);
    ReachIsCumulative(shares, i + 1);
    ReachIsCumulative(shares, |shares|);
    CountIsBelow(shares, i, BUCKETS);
    UncoveredIsRest(shares, BUCKETS);
  }

  lemma RestIsFair(start: real, end: real, before: nat, upTo: nat, rest: nat)
    requires 0.0 <= start <= end < 1.0 && RoundedUp(start, before, BUCKETS) && RoundedUp(end, upTo, BUCKETS)
    ensures WithinOne(upTo - before + rest, end - start) <==>
      rest as real + (upTo as real - Buckets(end)) - (before as real - Buckets(start)) < 1.0
  {}

  // What the control is then given: the missing traffic as well as its own, up to the rounding of
  // its share's two ends and of the last one.
  lemma ControlGetsTheRest(e: Experiment, shares: seq<Share>, i: nat)
    requires Sorted(shares) && Lists(shares, e.trafficSplit) && i < |shares|
    requires NonNegative(shares) && AllKnown(e, shares)
    requires IsControl(e, shares[i].id) && Cumulative(shares, |shares|) <= 1.0
    ensures
      var traffic := e.trafficSplit[shares[i].id] + 1.0 - Cumulative(shares, |shares|);
      -2.0 < Given(e, shares, i, BUCKETS) as real - Buckets(traffic) < 1.0
  {
    var start, end, total := Cumulative(shares, i), Cumulative(shares, i + 1), Cumulative(shares, |shares|);
    assert shares[i] in shares;
    GivenIsCount(e, shares, i, BUCKETS);
    EndsInOrder(shares, i);
    CountAndRest(shares, i);
    BelowIsRoundedUp(start, BUCKETS);
    BelowIsRoundedUp(end, BUCKETS);
    BelowIsRoundedUp(total, BUCKETS);
    RestIsGiven(start, end, total, Below(start, BUCKETS), Below(end, BUCKETS), Below(total, BUCKETS));
  }

  lemma RestIsGiven(start: real, end: real, total: real, before: nat, upTo: nat, covered: nat)
    requires 0.0 <= start <= end <= total <= 1.0 && RoundedUp(start, before, BUCKETS)
    requires RoundedUp(end, upTo, BUCKETS) && RoundedUp(total, covered, BUCKETS)
    ensures -2.0 < (upTo - before + BUCKETS - covered) as real - Buckets(end - start + 1.0 - total) < 1.0
  {}

  // The accepted split of 0.5 for the control and 0.49 gives the control 100 buckets too many.
  lemma AcceptedSplitFavoursControl(model: string)
    ensures
      var shares := [Share("a", 0.5), Share("b", 0.49)];
      var e := Experiment(Some(Variant("a", model)), [Variant("b", model)], map["a" := 0.5, "b" := 0.49], true);
      && Sorted(shares) && Lists(shares, e.trafficSplit) && NonNegative(shares) && AllKnown(e, shares)
      && 0.99 <= Cumulative(shares, |shares|) <= 1.01
      && Given(e, shares, 0, BUCKETS) == 5100 && !WithinOne(5100, 0.5)
  {
    var shares := [Share("a", 0.5), Share("b", 0.49)];
    var e := Experiment(Some(Variant("a", model)), [Variant("b", model)], map["a" := 0.5, "b" := 0.49], true);
    TwoShares(shares, 0.5, 0.49);
    SplitBuckets(shares);
    assert Known(e, "a") == Some(Variant("a", model)) && Known(e, "b") == Some(Variant("b", model));
    GivenIsCount(e, shares, 0, BUCKETS);
  }

  lemma SplitBuckets(shares: seq<Share>)
    requires |shares| == 2 && Reach(shares, 0) == 0.0 && Reach(shares, 1) == 0.5 && Reach(shares, 2) == 0.99
    ensures Count(shares, 0, BUCKETS) == 5000 && Uncovered(shares, BUCKETS) == 100
  {
    CountIsBelow(shares, 0, BUCKETS);
    UncoveredIsRest(shares, BUCKETS);
    BelowIsRoundedUp(0.5, BUCKETS);
    BelowIsRoundedUp(0.99, BUCKETS);
    NothingBelowZero(BUCKETS);
  }

  lemma TwoShares(shares: seq<Share>, x: real, y: real)
    requires |shares| == 2 && shares[0].traffic == x >= 0.0 && shares[1].traffic == y >= 0.0
    ensures Reach(shares, 0) == 0.0 && Reach(shares, 1) == Cumulative(shares, 1) == x
    ensures Reach(shares, 2) == Cumulative(shares, 2) == x + y
  {
    assert Cumulative(shares, 1) == Cumulative(shares, 0) + x && Cumulative(shares, 0) == 0.0;
    ReachIsCumulative(shares, 1);
    ReachIsCumulative(shares, 2);
  }

  // A share that starts beyond 1 gets no bucket.
  lemma BeyondOneGetsNothing(shares: seq<Share>, i: nat)
    requires i < |shares| && Reach(shares, i) >= 1.0
    ensures Count(shares, i, BUCKETS) == 0
  {
    ReachGrows(shares, i, i + 1);
    CountIsBelow(shares, i, BUCKETS);
    BelowIsRoundedUp(Reach(shares, i), BUCKETS);
    BelowIsRoundedUp(Reach(shares, i + 1), BUCKETS);
  }

  // A share that does not raise the total gets no bucket: no traffic, or a negative one.
  lemma NoTrafficNoBucket(shares: seq<Share>, i: nat)
    requires i < |shares| && shares[i].traffic <= 0.0
    ensures Count(shares, i, BUCKETS) == 0
  {
    CumulativeWithinReach(shares, i);
    CountIsBelow(shares, i, BUCKETS);
  }

  lemma CumulativeWithinReach(shares: seq<Share>, n: nat)
    requires n <= |shares|
    ensures Cumulative(shares, n) <= Reach(shares, n)
  {}

  function TotalCount(shares: seq<Share>, k: nat, n: nat): nat
    requires k <= |shares|
  {
    if k == 0 then 0 else TotalCount(shares, k - 1, n) + Count(shares, k - 1, n)
  }

  lemma {:induction false} TotalIsBelow(shares: seq<Share>, k: nat, n: nat)
    requires k <= |shares|
    ensures TotalCount(shares, k, n) == Below(Reach(shares, k), n)
  {
    if k > 0 {
      TotalIsBelow(shares, k - 1, n);
      CountIsBelow(shares, k - 1, n);
    } else {
      NothingBelowZero(n);
    }
  }

  lemma {:induction false} NothingBelowZero(n: nat)
    ensures Below(0.0, n) == 0
  {
    if n > 0 {
      NothingBelowZero(n - 1);
    }
  }

  lemma {:induction false} UncoveredIsRest(shares: seq<Share>, n: nat)
    ensures Below(Reach(shares, |shares|), n) + Uncovered(shares, n) == n
  {
    if n > 0 {
      UncoveredIsRest(shares, n - 1);
    }
  }

  // Every bucket is assigned: the shares' buckets and the uncovered ones add up to all of them,
  // and none is left uncovered exactly when the shares reach beyond the last bucket.
  lemma AllBucketsAssigned(shares: seq<Share>)
    ensures TotalCount(shares, |shares|, BUCKETS) + Uncovered(shares, BUCKETS) == BUCKETS
    ensures Uncovered(shares, BUCKETS) == 0 <==> Reach(shares, |shares|) > Selection(BUCKETS - 1)
  {
    TotalIsBelow(shares, |shares|, BUCKETS);
    UncoveredIsRest(shares, BUCKETS);
    UncoveredGrows(shares, BUCKETS);
  }

  lemma {:induction false} UncoveredGrows(shares: seq<Share>, n: nat)
    requires n > 0
    ensures Uncovered(shares, n) == 0 <==> Selection(n - 1) < Reach(shares, |shares|)
  {
    if n > 1 {
      UncoveredGrows(shares, n - 1);
    }
  }

  // ----- the object -----

  datatype SelectError = NotFound | NotActive
  datatype Outcome = Selected(variant: Option<Variant>) | Refused(error: SelectError)

  class ExperimentManager {
    var experiments: map<string, Experiment>

    constructor ()
      ensures experiments == map[]
    {
      experiments := map[];
    }

    // An experiment is registered if its shares add up to 1 up to a hundredth. (They are added up
    // in the order of their ids; over the reals the order makes no difference.)
    method CreateExperiment(id: string, e: Experiment) returns (ok: bool)
      modifies this
      ensures forall shares :: Sorted(shares) && Lists(shares, e.trafficSplit) ==>
        (ok <==> 0.99 <= Cumulative(shares, |shares|) <= 1.01)
      ensures experiments == if ok then old(experiments)[id := e.(active := true)] else old(experiments)
    {
      var shares := OrderedShares(e.trafficSplit);
      var totalTraffic := 0.0;
      for i := 0 to |shares|
        invariant totalTraffic == Cumulative(shares, i)
      {
        totalTraffic := totalTraffic + shares[i].traffic;
      }
      forall other | Sorted(other) && Lists(other, e.trafficSplit)
        ensures other == shares
      {
        SortedIsUnique(other, shares, e.trafficSplit);
      }
      ok := 0.99 <= totalTraffic <= 1.01;
      if ok {
        experiments := experiments[id := e.(active := true)];
      }
    }

    method StopExperiment(id: string) returns (ok: bool)
      modifies this
      ensures ok <==> id in old(experiments)
      ensures ok ==> experiments == old(experiments)[id := old(experiments)[id].(active := false)]
      ensures !ok ==> experiments == old(experiments)
    {
      ok := id in experiments;
      if ok {
        experiments := experiments[id := experiments[id].(active := false)];
      }
    }

    // The variant for a key whose hash is `hash`. It does not depend on the order in which the
    // split is walked: any sorted listing of the split selects the same.
    method SelectVariant(id: string, hash: nat) returns (outcome: Outcome)
      ensures id !in experiments ==> outcome == Refused(NotFound)
      ensures id in experiments && !experiments[id].active ==> outcome == Refused(NotActive)
      ensures id in experiments && experiments[id].active ==>
        forall shares :: Sorted(shares) && Lists(shares, experiments[id].trafficSplit) ==>
          outcome == Selected(SelectFrom(experiments[id], shares, hash % 10000, 0))
    {
      if id !in experiments {
        return Refused(NotFound);
      }
      var e := experiments[id];
      if !e.active {
        return Refused(NotActive);
      }
      var bucket := hash % BUCKETS;
      var selection := bucket as real / BUCKETS as real;
      var shares := OrderedShares(e.trafficSplit);
      forall other | Sorted(other) && Lists(other, e.trafficSplit)
        ensures other == shares
      {
        SortedIsUnique(other, shares, e.trafficSplit);
      }
      var cumulative := 0.0;
      for i := 0 to |shares|
        invariant cumulative == Cumulative(shares, i)
        invariant SelectFrom(e, shares, bucket, i) == SelectFrom(e, shares, bucket, 0)
      {
        cumulative := cumulative + shares[i].traffic;
        if selection < cumulative {
          if e.control.Some? && e.control.value.id == shares[i].id {
            return Selected(e.control);
          }
          var found := FindById(e.variants, shares[i].id);
          if found.Some? {
            return Selected(found);
          }
        }
      }
      outcome := Selected(e.control);
    }
  }

  method FindById(variants: seq<Variant>, id: string) returns (found: Option<Variant>)
    ensures found == FindVariant(variants, id)
  {
    for k := 0 to |variants|
      invariant FindVariant(variants[k..], id) == FindVariant(variants, id)
    {
      assert variants[k..][1..] == variants[k + 1..];
      if variants[k].id == id {
        return Some(variants[k]);
      }
    }
    found := None;
  }

  // Walks the map in any order, putting each entry in its place by id.
  method OrderedShares(split: map<string, real>) returns (shares: seq<Share>)
    ensures Sorted(shares) && Lists(shares, split)
  {
    shares := [];
    var todo := split.Keys;
    while todo != {}
      invariant todo <= split.Keys
      invariant Sorted(shares) && Lists(shares, split - todo)
    {
      var id :| id in todo;
      assert forall s :: s in shares ==> s.id != id;
      ghost var before, listed := shares, split - todo;
      todo := todo - {id};
      shares := InsertShare(shares, Share(id, split[id]));
      forall k | k in split - todo
        ensures Share(k, split[k]) in shares
      {
        assert k != id ==> k in listed && Share(k, listed[k]) in before;
      }
    }
    assert split - todo == split;
  }

  method InsertShare(shares: seq<Share>, s: Share) returns (longer: seq<Share>)
    requires Sorted(shares) && forall x :: x in shares ==> x.id != s.id
    ensures Sorted(longer)
    ensures forall x :: x in longer <==> x in shares || x == s
  {
    var k := 0;
    while k < |shares| && Less(shares[k].id, s.id)
      invariant 0 <= k <= |shares|
      invariant forall i :: 0 <= i < k ==> Less(shares[i].id, s.id)
    {
      k := k + 1;
    }
    longer := shares[..k] + [s] + shares[k..];
    forall j | k <= j < |shares|
      ensures Less(s.id, shares[j].id)
    {
      LessTotal(shares[k].id, s.id);
      if k < j {
        LessTransitive(s.id, shares[k].id, shares[j].id);
      }
    }
  }
}
