/**
  Longest-processing-time packing of scopes into shards
  (scripts/personal-memory-parallel.py, `pack_shards`), with Graham's bound.

  An assignment of n tasks to bins is a sequence of n bin numbers; `Load` is the
  weight an assignment puts into one bin.
 */
module Packing {
  import opened Sequences
  import opened Tasks

  function Sum(w: seq<nat>): nat {
    if w == [] then 0 else Sum(w[..|w| - 1]) + w[|w| - 1]
  }

  function Load(w: seq<nat>, place: seq<nat>, bin: nat): nat
    requires |w| == |place|
  {
    if w == [] then 0
    else
      var last := |w| - 1;
      Load(w[..last], place[..last], bin) + (if place[last] == bin then w[last] else 0)
  }

  /** The loads of bins 0 .. m-1 together. */
  function TotalLoad(w: seq<nat>, place: seq<nat>, m: nat): nat
    requires |w| == |place|
  {
    if m == 0 then 0 else TotalLoad(w, place, m - 1) + Load(w, place, m - 1)
  }

  /** Every place is one of the `m` bins. */
  ghost predicate AreBins(place: seq<nat>, m: nat) {
    forall i :: 0 <= i < |place| ==> place[i] < m
  }

  ghost predicate Fits(w: seq<nat>, place: seq<nat>, m: nat, limit: nat)
    requires |w| == |place|
  {
    AreBins(place, m) && forall bin :: 0 <= bin < m ==> Load(w, place, bin) <= limit
  }

  lemma {:induction false} TotalLoadSnoc(w: seq<nat>, place: seq<nat>, x: nat, at: nat, m: nat)
    requires |w| == |place|
    ensures TotalLoad(w + [x], place + [at], m) == TotalLoad(w, place, m) + (if at < m then x else 0)
  {
    if m != 0 {
      TotalLoadSnoc(w, place, x, at, m - 1);
      assert (w + [x])[..|w|] == w && (place + [at])[..|w|] == place;
    }
  }

  /** Nothing is lost or counted twice: the bins hold the whole weight together. */
  lemma {:induction false} TotalLoadIsSum(w: seq<nat>, place: seq<nat>, m: nat)
    requires |w| == |place| && AreBins(place, m)
    ensures TotalLoad(w, place, m) == Sum(w)
  {
    if w == [] {
      EmptyTotal(place, m);
    } else {
      var last := |w| - 1;
      TotalLoadIsSum(w[..last], place[..last], m);
      TotalLoadSnoc(w[..last], place[..last], w[last], place[last], m);
      assert w[..last] + [w[last]] == w && place[..last] + [place[last]] == place;
    }
  }

  lemma {:induction false} EmptyTotal(place: seq<nat>, m: nat)
    requires place == []
    ensures TotalLoad([], place, m) == 0
  {
    if m != 0 {
      EmptyTotal(place, m - 1);
    }
  }

  lemma {:induction false} TotalAtMost(w: seq<nat>, place: seq<nat>, m: nat, limit: nat)
    requires |w| == |place|
    requires forall bin :: 0 <= bin < m ==> Load(w, place, bin) <= limit
    ensures TotalLoad(w, place, m) <= m * limit
  {
    if m != 0 {
      TotalAtMost(w, place, m - 1, limit);
    }
  }

  lemma {:induction false} TotalAtLeast(w: seq<nat>, place: seq<nat>, m: nat, low: nat)
    requires |w| == |place|
    requires forall bin :: 0 <= bin < m ==> low <= Load(w, place, bin)
    ensures m * low <= TotalLoad(w, place, m)
  {
    if m != 0 {
      TotalAtLeast(w, place, m - 1, low);
    }
  }

  // ----- the greedy rule -----

  ghost predicate Descending(w: seq<nat>) {
    forall i, j :: 0 <= i < j < |w| ==> w[j] <= w[i]
  }

  /** Task `k` went to a bin that was least loaded when it was placed. */
  ghost predicate PlacedLightest(w: seq<nat>, place: seq<nat>, m: nat, k: nat)
    requires k < |w| == |place|
  {
    forall bin :: 0 <= bin < m ==> Load(w[..k], place[..k], place[k]) <= Load(w[..k], place[..k], bin)
  }

  ghost predicate Greedy(w: seq<nat>, place: seq<nat>, m: nat)
    requires |w| == |place|
  {
    AreBins(place, m) && forall k :: 0 <= k < |w| ==> PlacedLightest(w, place, m, k)
  }

  lemma GreedyPrefix(w: seq<nat>, place: seq<nat>, m: nat)
    requires |w| == |place| > 0 && Greedy(w, place, m)
    ensures Greedy(w[..|w| - 1], place[..|w| - 1], m)
  {
    var v, a := w[..|w| - 1], place[..|w| - 1];
    forall k | 0 <= k < |v|
      ensures PlacedLightest(v, a, m, k)
    {
      assert v[..k] == w[..k] && a[..k] == place[..k] && PlacedLightest(w, place, m, k);
    }
  }

  lemma FitsPrefix(w: seq<nat>, rival: seq<nat>, m: nat, limit: nat)
    requires |w| == |rival| > 0 && Fits(w, rival, m, limit)
    ensures Fits(w[..|w| - 1], rival[..|w| - 1], m, limit)
  {
    var v, r := w[..|w| - 1], rival[..|w| - 1];
    forall bin | 0 <= bin < m
      ensures Load(v, r, bin) <= limit
    {
      assert Load(w, rival, bin) <= limit;
    }
  }

  /** Placing the last task on a least loaded bin costs at most the mean plus that task. */
  lemma LastPlacement(w: seq<nat>, place: seq<nat>, m: nat)
    requires |w| == |place| > 0 && Greedy(w, place, m)
    ensures m * Load(w, place, place[|w| - 1]) <= Sum(w) + (m - 1) * w[|w| - 1]
  {
    var last := |w| - 1;
    var low := Load(w[..last], place[..last], place[last]);
    assert PlacedLightest(w, place, m, last);
    TotalAtLeast(w[..last], place[..last], m, low);
    TotalLoadIsSum(w[..last], place[..last], m);
    Distribute(m, low, w[last]);
  }

  lemma Distribute(m: nat, x: nat, y: nat)
    ensures m * (x + y) == m * x + (m - 1) * y + y
  {
  }

  // ----- tasks above a third of the limit -----

  lemma {:induction false} InBin(w: seq<nat>, place: seq<nat>, i: nat)
    requires i < |w| == |place|
    ensures w[i] <= Load(w, place, place[i])
  {
    if i < |w| - 1 {
      InBin(w[..|w| - 1], place[..|w| - 1], i);
    }
  }

  lemma {:induction false} PairInBin(w: seq<nat>, place: seq<nat>, i: nat, j: nat)
    requires i < j < |w| == |place| && place[i] == place[j]
    ensures w[i] + w[j] <= Load(w, place, place[i])
  {
    if j < |w| - 1 {
      PairInBin(w[..|w| - 1], place[..|w| - 1], i, j);
    } else {
      InBin(w[..j], place[..j], i);
    }
  }

  lemma {:induction false} TripleInBin(w: seq<nat>, place: seq<nat>, i: nat, j: nat, k: nat)
    requires i < j < k < |w| == |place| && place[i] == place[j] == place[k]
    ensures w[i] + w[j] + w[k] <= Load(w, place, place[i])
  {
    if k < |w| - 1 {
      TripleInBin(w[..|w| - 1], place[..|w| - 1], i, j, k);
    } else {
      PairInBin(w[..k], place[..k], i, j);
    }
  }

  lemma {:induction false} LoadOfNone(w: seq<nat>, place: seq<nat>, bin: nat)
    requires |w| == |place| && forall j :: 0 <= j < |w| ==> place[j] != bin
    ensures Load(w, place, bin) == 0
  {
    if w != [] {
      LoadOfNone(w[..|w| - 1], place[..|w| - 1], bin);
    }
  }

  lemma {:induction false} LoadOfOne(w: seq<nat>, place: seq<nat>, i: nat)
    requires i < |w| == |place| && forall j :: 0 <= j < |w| && j != i ==> place[j] != place[i]
    ensures Load(w, place, place[i]) == w[i]
  {
    if i < |w| - 1 {
      LoadOfOne(w[..|w| - 1], place[..|w| - 1], i);
    } else {
      LoadOfNone(w[..i], place[..i], place[i]);
    }
  }

  /** 2 for a task alone in its bin, 1 for any other task. */
  function Crowding(w: seq<nat>, place: seq<nat>): (c: seq<nat>)
    requires |w| == |place|
    ensures |c| == |w|
    ensures forall i :: 0 <= i < |w| ==> c[i] == if Load(w, place, place[i]) == w[i] then 2 else 1
  {
    seq(|w|, i requires 0 <= i < |w| => if Load(w, place, place[i]) == w[i] then 2 else 1)
  }

  /** Every bin in use carries a crowding of two or more. */
  lemma CrowdedBin(w: seq<nat>, place: seq<nat>, bin: nat)
    requires |w| == |place| && 0 < Load(w, place, bin)
    ensures 2 <= Load(Crowding(w, place), place, bin)
  {
    var c := Crowding(w, place);
    if forall j :: 0 <= j < |w| ==> place[j] != bin {
      LoadOfNone(w, place, bin);
      assert false;
    }
    var i :| 0 <= i < |w| && place[i] == bin;
    if Load(w, place, bin) == w[i] {
      InBin(c, place, i);
    } else if j :| 0 <= j < |w| && j != i && place[j] == bin {
      PairInBin(c, place, if i < j then i else j, if i < j then j else i);
    } else {
      LoadOfOne(w, place, i);
      assert false;
    }
  }

  /** A bin without three tasks, whose pairs weigh at most two, weighs at most two. */
  lemma {:induction false} ThinBin(c: seq<nat>, place: seq<nat>, bin: nat)
    requires |c| == |place|
    requires forall i :: 0 <= i < |c| ==> c[i] <= 2
    requires forall i, j :: 0 <= i < j < |c| && place[i] == place[j] == bin ==> c[i] + c[j] <= 2
    requires forall i, j, k :: 0 <= i < j < k < |c| ==> !(place[i] == place[j] == place[k] == bin)
    ensures Load(c, place, bin) <= 2
  {
    if c == [] {
    } else {
      var last := |c| - 1;
      if place[last] != bin {
        ThinBin(c[..last], place[..last], bin);
      } else if i :| 0 <= i < last && place[i] == bin {
        LoadOfOne(c[..last], place[..last], i);
      } else {
        LoadOfNone(c[..last], place[..last], bin);
      }
    }
  }

  /** In a rival packing within `limit`, tasks above a third of it share a bin in pairs only,
      and a task the greedy rule left alone shares its bin with nobody. */
  lemma RivalBinIsThin(w: seq<nat>, place: seq<nat>, rival: seq<nat>, m: nat, limit: nat, c: seq<nat>, bin: nat)
    requires |w| == |place| == |rival| > 0 && bin < m
    requires Descending(w) && Greedy(w, place, m) && Fits(w, rival, m, limit)
    requires limit < 3 * w[|w| - 1]
    requires limit < Load(w, place, place[|w| - 1])
    requires c == Crowding(w[..|w| - 1], place[..|w| - 1]) + [1]
    ensures Load(c, rival, bin) <= 2
  {
    forall i, j | 0 <= i < j < |c| && rival[i] == rival[j] == bin
      ensures c[i] + c[j] <= 2
    {
      RivalPair(w, place, rival, m, limit, c, i, j);
    }
    forall i, j, k | 0 <= i < j < k < |c|
      ensures !(rival[i] == rival[j] == rival[k] == bin)
    {
      if rival[i] == rival[j] == rival[k] == bin {
        TripleInBin(w, rival, i, j, k);
      }
    }
    ThinBin(c, rival, bin);
  }

  lemma RivalPair(w: seq<nat>, place: seq<nat>, rival: seq<nat>, m: nat, limit: nat, c: seq<nat>, i: nat, j: nat)
    requires |w| == |place| == |rival| > 0 && i < j < |w| && rival[i] == rival[j]
    requires Descending(w) && Greedy(w, place, m) && Fits(w, rival, m, limit)
    requires limit < Load(w, place, place[|w| - 1])
    requires c == Crowding(w[..|w| - 1], place[..|w| - 1]) + [1]
    ensures c[i] + c[j] <= 2
  {
    var last := |w| - 1;
    PairInBin(w, rival, i, j);
    assert w[last] <= w[i] && w[last] <= w[j];
    if c[i] == 2 {
      LonelyIsLarge(w, place, m, limit, i);
    } else if c[j] == 2 {
      LonelyIsLarge(w, place, m, limit, j);
    }
  }

  /** A task left alone in its bin is too large for the last task to join it within the limit. */
  lemma LonelyIsLarge(w: seq<nat>, place: seq<nat>, m: nat, limit: nat, k: nat)
    requires |w| == |place| > 0 && k < |w| - 1 && Greedy(w, place, m)
    requires limit < Load(w, place, place[|w| - 1])
    requires Load(w[..|w| - 1], place[..|w| - 1], place[k]) == w[k]
    ensures limit < w[k] + w[|w| - 1]
  {
    assert PlacedLightest(w, place, m, |w| - 1);
  }

  /** While every task exceeds a third of a limit some packing meets, the greedy rule meets it too. */
  lemma LargeTasksFit(w: seq<nat>, place: seq<nat>, rival: seq<nat>, m: nat, limit: nat)
    requires |w| == |place| == |rival| > 0
    requires Descending(w) && Greedy(w, place, m) && Fits(w, rival, m, limit)
    requires limit < 3 * w[|w| - 1]
    ensures Load(w, place, place[|w| - 1]) <= limit
  {
    var last := |w| - 1;
    if limit < Load(w, place, place[last]) {
      var v, a := w[..last], place[..last];
      var c := Crowding(v, a) + [1];
      InBin(w, rival, last);
      forall bin | 0 <= bin < m
        ensures 2 <= Load(c[..last], a, bin)
      {
        assert PlacedLightest(w, place, m, last);
        CrowdedBin(v, a, bin);
        assert c[..last] == Crowding(v, a);
      }
      TotalAtLeast(c[..last], a, m, 2);
      TotalLoadIsSum(c[..last], a, m);
      forall bin | 0 <= bin < m
        ensures Load(c, rival, bin) <= 2
      {
        RivalBinIsThin(w, place, rival, m, limit, c, bin);
      }
      TotalAtMost(c, rival, m, 2);
      TotalLoadIsSum(c, rival, m);
      assert false;
    }
  }

  // ----- the bound -----

  lemma MeanAtMost(w: seq<nat>, rival: seq<nat>, m: nat, limit: nat)
    requires |w| == |rival| && Fits(w, rival, m, limit)
    ensures Sum(w) <= m * limit
  {
    TotalLoadIsSum(w, rival, m);
    TotalAtMost(w, rival, m, limit);
  }

  lemma ScaleUp(m: nat, load: nat, limit: nat)
    requires 1 <= m && load <= limit
    ensures 3 * m * load <= (4 * m - 1) * limit
  {
    MulMonotone(3 * m, load, limit);
    MulMonotone(limit, 3 * m, 4 * m - 1);
  }

  lemma ScaleThird(m: nat, load: nat, sum: nat, x: nat, limit: nat)
    requires 1 <= m && m * load <= sum + (m - 1) * x && sum <= m * limit && 3 * x <= limit
    ensures 3 * m * load <= (4 * m - 1) * limit
  {
    var ml, mx, mt := m * load, (m - 1) * x, m * limit;
    MulMonotone(m - 1, 3 * x, limit);
    assert (m - 1) * (3 * x) == 3 * mx;
    assert (m - 1) * limit == mt - limit;
    assert 3 * ml <= 4 * mt - limit;
    assert 3 * m * load == 3 * ml && (4 * m - 1) * limit == 4 * mt - limit;
  }

  lemma ScaleTwice(m: nat, load: nat, sum: nat, x: nat, limit: nat)
    requires 1 <= m && m * load <= sum + (m - 1) * x && sum <= m * limit && x <= limit
    ensures load <= 2 * limit
  {
    MulMonotone(m - 1, x, limit);
    assert (m - 1) * limit == m * limit - limit;
    assert m * (2 * limit + 1) == m * limit + m * limit + m;
    if 2 * limit < load {
      MulMonotone(m, 2 * limit + 1, load);
    }
  }

  lemma MulMonotone(k: nat, x: nat, y: nat)
    requires x <= y
    ensures k * x <= k * y && x * k <= y * k
  {
  }

  lemma PlacedBinBound(w: seq<nat>, place: seq<nat>, rival: seq<nat>, m: nat, limit: nat)
    requires |w| == |place| == |rival| > 0
    requires Descending(w) && Greedy(w, place, m) && Fits(w, rival, m, limit)
    ensures 3 * m * Load(w, place, place[|w| - 1]) <= (4 * m - 1) * limit
  {
    var x, load := w[|w| - 1], Load(w, place, place[|w| - 1]);
    if limit < 3 * x {
      LargeTasksFit(w, place, rival, m, limit);
      ScaleUp(m, load, limit);
    } else {
      LastPlacement(w, place, m);
      MeanAtMost(w, rival, m, limit);
      ScaleThird(m, load, Sum(w), x, limit);
    }
  }

  /** Graham's bound: no bin exceeds (4/3 - 1/(3m)) times what any other packing achieves. */
  lemma {:induction false} GreedyBound(w: seq<nat>, place: seq<nat>, rival: seq<nat>, m: nat, limit: nat, bin: nat)
    requires |w| == |place| == |rival| && bin < m
    requires Descending(w) && Greedy(w, place, m) && Fits(w, rival, m, limit)
    ensures 3 * m * Load(w, place, bin) <= (4 * m - 1) * limit
  {
    if w == [] {
    } else if place[|w| - 1] == bin {
      PlacedBinBound(w, place, rival, m, limit);
    } else {
      GreedyPrefix(w, place, m);
      FitsPrefix(w, rival, m, limit);
      GreedyBound(w[..|w| - 1], place[..|w| - 1], rival[..|w| - 1], m, limit, bin);
    }
  }

  /** A second bound, without a rival: the mean plus the largest task. */
  lemma {:induction false} GreedyMeanBound(w: seq<nat>, place: seq<nat>, m: nat, limit: nat, bin: nat)
    requires |w| == |place| && bin < m && Greedy(w, place, m)
    requires Sum(w) <= m * limit && forall i :: 0 <= i < |w| ==> w[i] <= limit
    ensures Load(w, place, bin) <= 2 * limit
  {
    if w == [] {
    } else if place[|w| - 1] == bin {
      LastPlacement(w, place, m);
      ScaleTwice(m, Load(w, place, bin), Sum(w), w[|w| - 1], limit);
    } else {
      GreedyPrefix(w, place, m);
      GreedyMeanBound(w[..|w| - 1], place[..|w| - 1], m, limit, bin);
    }
  }

  // ----- packing tasks -----

  function Weights(tasks: seq<Task>): (w: seq<nat>)
    ensures |w| == |tasks|
  {
    seq(|tasks|, i requires 0 <= i < |tasks| => tasks[i].messages)
  }

  function MessagesOf(t: Task): nat {
    t.messages
  }

  function Messages(tasks: seq<Task>): nat {
    SumBy(tasks, MessagesOf)
  }

  lemma MessagesSnoc(tasks: seq<Task>, task: Task)
    ensures Weights(tasks + [task]) == Weights(tasks) + [task.messages]
    ensures Messages(tasks + [task]) == Messages(tasks) + task.messages
  {
    SumBySnoc(tasks, task, MessagesOf);
  }

  lemma {:induction false} MessagesAreSum(tasks: seq<Task>)
    ensures Messages(tasks) == Sum(Weights(tasks))
  {
    if tasks != [] {
      var last := |tasks| - 1;
      MessagesAreSum(tasks[..last]);
      MessagesSnoc(tasks[..last], tasks[last]);
      assert tasks[..last] + [tasks[last]] == tasks;
    }
  }

  /** `groups` distributes exactly `tasks` over m shards of at most `limit` messages each. */
  ghost predicate IsPacking(groups: seq<seq<Task>>, tasks: seq<Task>, m: nat, limit: nat) {
    |groups| == m && multiset(Flatten(groups)) == multiset(tasks)
    && forall g :: 0 <= g < m ==> Messages(groups[g]) <= limit
  }

  lemma {:induction false} PlacementOf(groups: seq<seq<Task>>, tasks: seq<Task>) returns (place: seq<nat>)
    requires multiset(Flatten(groups)) == multiset(tasks)
    ensures |place| == |tasks| && AreBins(place, |groups|)
    ensures forall g :: 0 <= g < |groups| ==> Load(Weights(tasks), place, g) <= Messages(groups[g])
    decreases |tasks|
  {
    if tasks == [] {
      return [];
    }
    var last := |tasks| - 1;
    assert tasks[..last] + [tasks[last]] == tasks;
    var rest, at := TakeOut(groups, tasks[..last], tasks[last]);
    var init := PlacementOf(rest, tasks[..last]);
    place := init + [at];
    LoadsWithLast(tasks, init, at);
    forall g | 0 <= g < |groups|
      ensures Load(Weights(tasks), place, g) <= Messages(groups[g])
    {
      assert Load(Weights(tasks[..last]), init, g) <= Messages(rest[g]);
    }
  }

  lemma LoadsWithLast(tasks: seq<Task>, init: seq<nat>, at: nat)
    requires tasks != [] && |init| == |tasks| - 1
    ensures forall g: nat :: Load(Weights(tasks), init + [at], g)
              == Load(Weights(tasks[..|tasks| - 1]), init, g) + (if g == at then tasks[|tasks| - 1].messages else 0)
  {
    var last := |tasks| - 1;
    assert (init + [at])[..last] == init && Weights(tasks)[..last] == Weights(tasks[..last]);
  }

  /** Takes one task out of the group that holds it. */
  lemma TakeOut(groups: seq<seq<Task>>, front: seq<Task>, task: Task) returns (rest: seq<seq<Task>>, at: nat)
    requires multiset(Flatten(groups)) == multiset(front + [task])
    ensures at < |groups| == |rest| && multiset(Flatten(rest)) == multiset(front)
    ensures forall g :: 0 <= g < |groups| ==>
      Messages(groups[g]) == Messages(rest[g]) + (if g == at then task.messages else 0)
  {
    assert task in multiset(Flatten(groups));
    var index;
    at, index := FlattenMember(groups, task);
    var without := RemoveAt(groups[at], index);
    rest := groups[at := without];
    SumByRemoveAt(groups[at], index, MessagesOf);
    RemoveAtMultiset(groups[at], index);
    FlattenUpdate(groups, at, without);
    SameBut(multiset(Flatten(rest)), multiset(Flatten(groups)), multiset(without), task, multiset(front));
  }

  lemma SameBut<T>(a: multiset<T>, b: multiset<T>, c: multiset<T>, x: T, d: multiset<T>)
    requires a + (c + multiset{x}) == b + c && b == d + multiset{x}
    ensures a == d
  {
    forall y
      ensures a[y] == d[y]
    {
      assert (a + (c + multiset{x}))[y] == (b + c)[y];
    }
  }

  /** The first position holding the smallest load: `loads.index(min(loads))`. */
  method IndexOfMin(loads: seq<nat>) returns (index: nat)
    requires loads != []
    ensures index < |loads|
    ensures forall i :: 0 <= i < |loads| ==> loads[index] <= loads[i]
    ensures forall i :: 0 <= i < index ==> loads[index] < loads[i]
  {
    index := 0;
    for i := 1 to |loads|
      invariant index < i
      invariant forall j :: 0 <= j < i ==> loads[index] <= loads[j]
      invariant forall j :: 0 <= j < index ==> loads[index] < loads[j]
    {
      if loads[i] < loads[index] {
        index := i;
      }
    }
  }

  function NonEmpty<T>(groups: seq<seq<T>>): (r: seq<seq<T>>)
    ensures [] !in r && |r| <= |groups|
    ensures forall g :: g in r ==> g in groups
  {
    if groups == [] then []
    else (if groups[0] == [] then [] else [groups[0]]) + NonEmpty(groups[1..])
  }

  lemma {:induction false} NonEmptyFlatten<T>(groups: seq<seq<T>>)
    ensures Flatten(NonEmpty(groups)) == Flatten(groups)
  {
    if groups != [] {
      NonEmptyFlatten(groups[1..]);
      var kept := if groups[0] == [] then [] else [groups[0]];
      FlattenAppend(kept, NonEmpty(groups[1..]));
      if groups[0] != [] {
        FlattenOne(groups[0]);
      }
    }
  }

  lemma {:induction false} FlattenEmpties<T>(m: nat)
    ensures Flatten<T>(seq(m, _ => [])) == []
  {
    if m != 0 {
      FlattenEmpties<T>(m - 1);
      assert seq<seq<T>>(m, _ => [])[1..] == seq(m - 1, _ => []);
    }
  }

  ghost predicate WithinGraham(shards: seq<seq<Task>>, m: nat, limit: nat) {
    forall g :: g in shards ==> 3 * m * Messages(g) <= (4 * m - 1) * limit
  }

  /** `limit` is an even share of all messages, rounded up at least, and no task is above it. */
  ghost predicate IsShareLimit(tasks: seq<Task>, m: nat, limit: nat) {
    Messages(tasks) <= m * limit && forall t :: t in tasks ==> t.messages <= limit
  }

  ghost predicate WithinTwice(shards: seq<seq<Task>>, limit: nat) {
    forall g :: g in shards ==> Messages(g) <= 2 * limit
  }

  /**
    At most `m` shards, none above Graham's bound against any distribution over `m`, none above twice an
    even share.
   */
  ghost predicate PackedInto(shards: seq<seq<Task>>, tasks: seq<Task>, m: nat) {
    && |shards| <= m
    && (forall rival, limit :: IsPacking(rival, tasks, m, limit) ==> WithinGraham(shards, m, limit))
    && forall limit :: IsShareLimit(tasks, m, limit) ==> WithinTwice(shards, limit)
  }

  /**
    Greedy longest-processing-time packing: every task lands in exactly one
    shard, and the heaviest shard is at most (4/3 - 1/(3m)) times the heaviest
    shard of any other distribution over as many shards as were asked for,
    which is one when fewer were.
   */
  method PackShards(tasks: seq<Task>, requested: int) returns (shards: seq<seq<Task>>)
    ensures multiset(Flatten(shards)) == multiset(tasks)
    ensures [] !in shards
    ensures 1 <= requested ==> PackedInto(shards, tasks, requested)
    ensures requested < 1 ==> PackedInto(shards, tasks, 1)
  {
    var m := if requested < 1 then 1 else requested;
    var key: Task -> int := (t: Task) => -(t.messages as int);
    var bins, loads, place := PlaceInOrder(SortByKey(tasks, key), m);
    shards := NonEmpty(bins);
    NonEmptyFlatten(bins);
    SortIsAscending(tasks, key);
    PlacedBounds(bins, loads, SortByKey(tasks, key), place, m, tasks, key);
  }

  /** The packing loop; `place` records which bin each task of `order` went to. */
  method PlaceInOrder(order: seq<Task>, m: nat) returns (bins: seq<seq<Task>>, loads: seq<nat>, ghost place: seq<nat>)
    requires 1 <= m
    ensures Placed(bins, loads, order, place, m)
    ensures |bins| == m && multiset(Flatten(bins)) == multiset(order)
  {
    bins := seq(m, _ => []);
    loads := seq(m, _ => 0);
    place := [];
    FlattenEmpties<Task>(m);
    for i := 0 to |order|
      invariant Placed(bins, loads, order[..i], place, m)
    {
      var task := order[i];
      var index := IndexOfMin(loads);
      PlaceNext(bins, loads, order[..i], place, m, task, index);
      assert order[..i + 1] == order[..i] + [task];
      bins := bins[index := bins[index] + [task]];
      loads := loads[index := loads[index] + task.messages];
      place := place + [index];
    }
    assert order[..|order|] == order;
  }

  /** The loop state: what is in the bins, how heavy they are, and that the rule was followed. */
  ghost predicate Placed(bins: seq<seq<Task>>, loads: seq<nat>, done: seq<Task>, place: seq<nat>, m: nat) {
    |bins| == |loads| == m && |place| == |done|
    && multiset(Flatten(bins)) == multiset(done)
    && Greedy(Weights(done), place, m)
    && forall b :: 0 <= b < m ==> Messages(bins[b]) == loads[b] == Load(Weights(done), place, b)
  }

  lemma PlaceNext(bins: seq<seq<Task>>, loads: seq<nat>, done: seq<Task>, place: seq<nat>, m: nat, task: Task, at: nat)
    requires Placed(bins, loads, done, place, m) && at < m
    requires forall b :: 0 <= b < m ==> loads[at] <= loads[b]
    ensures Placed(bins[at := bins[at] + [task]], loads[at := loads[at] + task.messages], done + [task], place + [at],
                   m)
  {
    FlattenUpdate(bins, at, bins[at] + [task]);
    SameButOne(multiset(Flatten(bins[at := bins[at] + [task]])), multiset(Flatten(bins)), multiset(bins[at]), task);
    MessagesSnoc(bins[at], task);
    MessagesSnoc(done, task);
    GreedySnoc(Weights(done), place, m, task.messages, at);
  }

  lemma PlacedBounds(bins: seq<seq<Task>>, loads: seq<nat>, order: seq<Task>, place: seq<nat>, m: nat,
                     tasks: seq<Task>, key: Task -> int)
    requires Placed(bins, loads, order, place, m)
    requires multiset(order) == multiset(tasks)
    requires Ascending(order, key) && forall t :: key(t) == -(t.messages as int)
    ensures forall rival, limit :: IsPacking(rival, tasks, m, limit) ==> WithinGraham(bins, m, limit)
    ensures forall limit :: IsShareLimit(tasks, m, limit) ==> WithinTwice(bins, limit)
  {
    var w := Weights(order);
    forall i, j | 0 <= i < j < |w|
      ensures w[j] <= w[i]
    {
      assert key(order[i]) <= key(order[j]);
    }
    forall rival, limit | IsPacking(rival, tasks, m, limit)
      ensures WithinGraham(bins, m, limit)
    {
      var other := PlacementOf(rival, order);
      forall g | g in bins
        ensures 3 * m * Messages(g) <= (4 * m - 1) * limit
      {
        var b :| 0 <= b < m && bins[b] == g;
        GreedyBound(w, place, other, m, limit, b);
      }
    }
    SumByPermutation(order, tasks, MessagesOf);
    MessagesAreSum(order);
    forall limit | IsShareLimit(tasks, m, limit)
      ensures WithinTwice(bins, limit)
    {
      forall i | 0 <= i < |w|
        ensures w[i] <= limit
      {
        assert order[i] in multiset(order);
      }
      forall g | g in bins
        ensures Messages(g) <= 2 * limit
      {
        var b :| 0 <= b < m && bins[b] == g;
        GreedyMeanBound(w, place, m, limit, b);
      }
    }
  }

  lemma SameButOne<T>(a: multiset<T>, b: multiset<T>, c: multiset<T>, x: T)
    requires a + c == b + (c + multiset{x})
    ensures a == b + multiset{x}
  {
    forall y
      ensures a[y] == (b + multiset{x})[y]
    {
      assert (a + c)[y] == (b + (c + multiset{x}))[y];
    }
  }

  /** Appending a task to a least loaded bin keeps the placement greedy. */
  lemma GreedySnoc(w: seq<nat>, place: seq<nat>, m: nat, x: nat, at: nat)
    requires |w| == |place| && Greedy(w, place, m) && at < m
    requires forall b :: 0 <= b < m ==> Load(w, place, at) <= Load(w, place, b)
    ensures Greedy(w + [x], place + [at], m)
    ensures forall b :: 0 <= b < m ==>
              Load(w + [x], place + [at], b) == Load(w, place, b) + (if b == at then x else 0)
  {
    var w', place' := w + [x], place + [at];
    assert w'[..|w|] == w && place'[..|w|] == place;
    forall k | 0 <= k < |w'|
      ensures PlacedLightest(w', place', m, k)
    {
      assert w'[..k] == w[..k] && place'[..k] == place[..k];
      if k < |w| {
        assert PlacedLightest(w, place, m, k);
      } else {
        assert w[..k] == w && place[..k] == place;
      }
    }
  }
}
