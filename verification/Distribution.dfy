/** The profile distributor: which enabled profiles move to which live instance. */
module Distribution {
  import opened Ordering

  /** Who serves a profile now; nobody if the owner is empty. */
  datatype Ownership = Ownership(profileId: int, enabled: bool, owner: string)

  datatype Assignment = Assignment(profileId: int, instanceId: string)

  datatype Plan = Plan(assign: seq<Assignment>, unassign: seq<int>)

  /** Profile ids come from a primary key. */
  ghost predicate DistinctIds(profiles: seq<Ownership>) {
    forall i, j :: 0 <= i < j < |profiles| ==> profiles[i].profileId != profiles[j].profileId
  }

  /** The live instances, sorted and without duplicates. */
  function Live(instances: seq<string>): seq<string> {
    Compact(Sort(instances, LexLeq))
  }

  ghost function ToSet(profiles: seq<Ownership>): set<Ownership> {
    set p | p in profiles
  }

  ghost function Enabled(profiles: seq<Ownership>): set<Ownership> {
    set p | p in profiles && p.enabled
  }

  // ---------------------------------------------------------------------------
  // What a distribution is: any map from the enabled profiles to owners.

  ghost function Share(a: map<Ownership, string>, id: string): set<Ownership> {
    set p | p in a && a[p] == id
  }

  ghost function Kept(a: map<Ownership, string>): set<Ownership> {
    set p | p in a && a[p] == p.owner
  }

  ghost function Current(profiles: set<Ownership>): map<Ownership, string> {
    map p | p in profiles :: p.owner
  }

  /** Every profile is on a listed instance, and no two loads differ by more than one;
      EvenIsAverage shows that this is the floor or the ceiling of the average. */
  ghost predicate Even(ids: seq<string>, a: map<Ownership, string>) {
    && (forall p :: p in a ==> a[p] in ids)
    && (forall x, y :: x in ids && y in ids ==> |Share(a, x)| <= |Share(a, y)| + 1)
  }

  // ---------------------------------------------------------------------------
  // What applying a plan does: later assignments of one profile win.

  function Target(assign: seq<Assignment>, p: Ownership): string {
    if assign == [] then p.owner
    else if assign[|assign| - 1].profileId == p.profileId then assign[|assign| - 1].instanceId
    else Target(assign[..|assign| - 1], p)
  }

  function NewOwner(plan: Plan, p: Ownership): string {
    Target(plan.assign, if p.profileId in plan.unassign then p.(owner := "") else p)
  }

  function Apply(plan: Plan, profiles: seq<Ownership>): seq<Ownership> {
    seq(|profiles|, i requires 0 <= i < |profiles| => profiles[i].(owner := NewOwner(plan, profiles[i])))
  }

  /** The distribution the plan leads to. */
  ghost function Planned(plan: Plan, profiles: set<Ownership>): map<Ownership, string> {
    map p | p in profiles :: NewOwner(plan, p)
  }

  /** Exactly the owned disabled profiles lose their owner. */
  ghost predicate Released(profiles: seq<Ownership>, plan: Plan) {
    && (forall p :: p in profiles && !p.enabled ==> NewOwner(plan, p) == "")
    && (forall id :: id in plan.unassign <==>
         exists p :: p in profiles && p.profileId == id && !p.enabled && p.owner != "")
  }

  /** Every assignment is a real move, and no even distribution keeps more profiles
      where they are than the plan does. */
  ghost predicate FewestMoves(ids: seq<string>, enabled: set<Ownership>, plan: Plan) {
    && |plan.assign| == |enabled| - |Kept(Planned(plan, enabled))|
    && (forall other: map<Ownership, string> | other.Keys == enabled && Even(ids, other) ::
          |plan.assign| <= |enabled| - |Kept(other)|)
  }

  /** What planDistribution promises; without a live instance nothing changes. */
  ghost predicate Promised(instances: seq<string>, profiles: seq<Ownership>, plan: Plan) {
    var ids := Live(instances);
    if |ids| == 0 then plan == Plan([], [])
    else
      && Even(ids, Planned(plan, Enabled(profiles)))
      && Released(profiles, plan)
      && FewestMoves(ids, Enabled(profiles), plan)
  }

  // ---------------------------------------------------------------------------
  // Sums over the instances.

  function At(m: map<string, int>, id: string): int {
    if id in m then m[id] else 0
  }

  ghost function Total(ids: seq<string>, m: map<string, int>): int {
    if ids == [] then 0 else At(m, ids[0]) + Total(ids[1..], m)
  }

  lemma {:induction false} TotalLe(ids: seq<string>, f: map<string, int>, g: map<string, int>)
    requires forall id :: id in ids ==> At(f, id) <= At(g, id)
    ensures Total(ids, f) <= Total(ids, g)
    ensures Total(ids, f) == Total(ids, g) ==> forall id :: id in ids ==> At(f, id) == At(g, id)
  {
    if ids != [] {
      TotalLe(ids[1..], f, g);
      assert forall id :: id in ids ==> id == ids[0] || id in ids[1..];
    }
  }

  lemma {:induction false} TotalAdd(ids: seq<string>, f: map<string, int>, g: map<string, int>, h: map<string, int>)
    requires forall id :: id in ids ==> At(h, id) == At(f, id) + At(g, id)
    ensures Total(ids, h) == Total(ids, f) + Total(ids, g)
  {
    if ids != [] {
      TotalAdd(ids[1..], f, g, h);
    }
  }

  lemma {:induction false} TotalConst(ids: seq<string>, f: map<string, int>, c: int)
    requires forall id :: id in ids ==> At(f, id) == c
    ensures Total(ids, f) == c * |ids|
  {
    if ids != [] {
      TotalConst(ids[1..], f, c);
    }
  }

  lemma {:induction false} TotalConcat(a: seq<string>, b: seq<string>, m: map<string, int>)
    ensures Total(a + b, m) == Total(a, m) + Total(b, m)
  {
    if a == [] {
      assert a + b == b;
    } else {
      assert (a + b)[1..] == a[1..] + b;
      TotalConcat(a[1..], b, m);
    }
  }

  lemma TotalRemove(ids: seq<string>, k: nat, m: map<string, int>)
    requires k < |ids|
    ensures Total(ids, m) == At(m, ids[k]) + Total(ids[..k] + ids[k + 1..], m)
  {
    TotalConcat(ids[..k], ids[k + 1..], m);
    TotalConcat(ids[..k], ids[k..], m);
    assert ids[..k] + ids[k..] == ids;
    assert ids[k..][1..] == ids[k + 1..];
  }

  lemma TakeOne(s: seq<string>, k: nat)
    requires k < |s|
    ensures multiset(s[..k] + s[k + 1..]) == multiset(s) - multiset{s[k]}
  {
    assert s == s[..k] + [s[k]] + s[k + 1..];
  }

  lemma TakeSame(a: seq<string>, b: seq<string>, k: nat)
    requires multiset(a) == multiset(b) && a != [] && k < |b| && b[k] == a[0]
    ensures multiset(a[1..]) == multiset(b[..k] + b[k + 1..])
  {
    TakeOne(a, 0);
    TakeOne(b, k);
    assert a[..0] + a[1..] == a[1..];
  }

  lemma {:induction false} TotalPermutation(a: seq<string>, b: seq<string>, m: map<string, int>)
    requires multiset(a) == multiset(b)
    ensures Total(a, m) == Total(b, m)
  {
    SameElements(a, b);
    if a != [] {
      assert a[0] in b;
      var k :| 0 <= k < |b| && b[k] == a[0];
      var rest := b[..k] + b[k + 1..];
      TakeSame(a, b, k);
      TotalPermutation(a[1..], rest, m);
      TotalRemove(b, k, m);
    }
  }

  ghost function Shares(ids: seq<string>, a: map<Ownership, string>): map<string, int> {
    map id | id in ids :: |Share(a, id)|
  }

  lemma {:induction false} TotalShares(ids: seq<string>, m: map<string, int>, a: map<Ownership, string>)
    requires Distinct(ids)
    requires forall id :: id in ids ==> At(m, id) == |Share(a, id)|
    ensures Total(ids, m) == |set p | p in a && a[p] in ids|
  {
    if ids != [] {
      var rest := ids[1..];
      TotalShares(rest, m, a);
      var others := set p | p in a && a[p] in rest;
      assert (set p | p in a && a[p] in ids) == Share(a, ids[0]) + others;
      assert Share(a, ids[0]) !! others;
    }
  }

  // ---------------------------------------------------------------------------
  // The exchange argument behind minimum movement.

  function Least(a: int, b: int): int {
    if a <= b then a else b
  }

  ghost function MinOf(ids: seq<string>, f: map<string, int>, g: map<string, int>): map<string, int> {
    map id | id in ids :: Least(At(f, id), At(g, id))
  }

  /** A distribution keeps at most min(load, share) profiles of each instance. */
  lemma KeptBound(ids: seq<string>, profiles: set<Ownership>, a: map<Ownership, string>)
    requires Distinct(ids) && a.Keys == profiles
    requires forall p :: p in a ==> a[p] in ids
    ensures |Kept(a)| <= Total(ids, MinOf(ids, Shares(ids, Current(profiles)), Shares(ids, a)))
  {
    var stay := map p | p in Kept(a) :: a[p];
    var m := Shares(ids, stay);
    TotalShares(ids, m, stay);
    assert (set p | p in stay && stay[p] in ids) == Kept(a);
    forall id | id in ids
      ensures At(m, id) <= At(MinOf(ids, Shares(ids, Current(profiles)), Shares(ids, a)), id)
    {
      SubsetSize(Share(stay, id), Share(Current(profiles), id));
      SubsetSize(Share(stay, id), Share(a, id));
    }
    TotalLe(ids, m, MinOf(ids, Shares(ids, Current(profiles)), Shares(ids, a)));
  }

  lemma SubsetSize<T>(a: set<T>, b: set<T>)
    requires a <= b
    ensures |a| <= |b|
  {
    assert b == a + (b - a);
  }

  /** If every extra slot is used, no distribution can use more of them. */
  lemma SlotsUsed(ids: seq<string>, load: map<string, int>, quota: map<string, int>, other: map<string, int>, base: int)
    requires forall id :: id in ids ==> base <= At(quota, id) <= base + 1 && base <= At(other, id) <= base + 1
    requires Total(ids, other) == Total(ids, quota)
    requires forall id :: id in ids && At(quota, id) > base ==> At(load, id) > base
    ensures Total(ids, MinOf(ids, load, other)) <= Total(ids, MinOf(ids, load, quota))
  {
    var mine, theirs := MinOf(ids, load, quota), MinOf(ids, load, other);
    var left := map id | id in ids :: At(theirs, id) + At(quota, id);
    var right := map id | id in ids :: At(mine, id) + At(other, id);
    TotalAdd(ids, theirs, quota, left);
    TotalAdd(ids, mine, other, right);
    TotalLe(ids, left, right);
  }

  /** Giving the extra slots to the most loaded instances keeps the most. */
  lemma QuotaBest(ids: seq<string>, load: map<string, int>, quota: map<string, int>, other: map<string, int>, base: int)
    requires forall id :: id in ids ==> base <= At(quota, id) <= base + 1 && base <= At(other, id) <= base + 1
    requires Total(ids, other) == Total(ids, quota)
    requires forall x, y :: x in ids && y in ids && At(quota, x) > At(quota, y) ==> At(load, x) >= At(load, y)
    ensures Total(ids, MinOf(ids, load, other)) <= Total(ids, MinOf(ids, load, quota))
  {
    if x :| x in ids && At(quota, x) > base && At(load, x) <= base {
      // Some extra slot is wasted, so every instance above the base has one.
      forall y | y in ids ensures At(quota, y) == base ==> At(load, y) <= base {
        if At(quota, y) == base {
          assert At(quota, x) > At(quota, y);
        }
      }
      TotalLe(ids, MinOf(ids, load, other), MinOf(ids, load, quota));
    } else {
      SlotsUsed(ids, load, quota, other, base);
    }
  }

  ghost predicate Level(ids: seq<string>, m: map<string, int>) {
    forall x, y :: x in ids && y in ids ==> At(m, x) <= At(m, y) + 1
  }

  lemma {:induction false} LowestOf(ids: seq<string>, m: map<string, int>) returns (low: string)
    requires |ids| > 0
    ensures low in ids && forall id :: id in ids ==> At(m, low) <= At(m, id)
  {
    low := ids[0];
    if |ids| > 1 {
      var other := LowestOf(ids[1..], m);
      low := if At(m, low) <= At(m, other) then low else other;
      assert forall id :: id in ids ==> id == ids[0] || id in ids[1..];
    }
  }

  /** Two level loads with one total share their base. */
  lemma CommonBase(ids: seq<string>, f: map<string, int>, g: map<string, int>) returns (base: int)
    requires |ids| > 0 && Level(ids, f) && Level(ids, g) && Total(ids, f) == Total(ids, g)
    ensures forall id :: id in ids ==> base <= At(f, id) <= base + 1 && base <= At(g, id) <= base + 1
  {
    var x := LowestOf(ids, f);
    var y := LowestOf(ids, g);
    base := At(f, x);
    if At(f, x) < At(g, y) {
      TotalLe(ids, f, g);
    } else if At(g, y) < At(f, x) {
      TotalLe(ids, g, f);
    }
  }

  lemma EvenTotal(ids: seq<string>, a: map<Ownership, string>)
    requires Distinct(ids)
    requires forall p :: p in a ==> a[p] in ids
    ensures Total(ids, Shares(ids, a)) == |a.Keys|
  {
    TotalShares(ids, Shares(ids, a), a);
    assert (set p | p in a && a[p] in ids) == a.Keys;
  }

  /** Every load is the floor or the ceiling of the average. */
  ghost predicate Average(ids: seq<string>, a: map<Ownership, string>)
    requires |ids| > 0
  {
    var n, k := |a.Keys|, |ids|;
    && (forall p :: p in a ==> a[p] in ids)
    && (forall id :: id in ids ==> n / k <= |Share(a, id)| <= (n + k - 1) / k)
  }

  lemma EvenIsAverage(ids: seq<string>, a: map<Ownership, string>)
    requires |ids| > 0 && Distinct(ids)
    ensures Even(ids, a) <==> Average(ids, a)
  {
    if Even(ids, a) {
      EvenAround(ids, a);
    }
    CeilingStep(|a.Keys|, |ids|);
  }

  lemma EvenAround(ids: seq<string>, a: map<Ownership, string>)
    requires |ids| > 0 && Distinct(ids) && Even(ids, a)
    ensures Average(ids, a)
  {
    var n, k := |a.Keys|, |ids|;
    EvenTotal(ids, a);
    var m := Shares(ids, a);
    var low := LowestOf(ids, m);
    LowestIsFloor(ids, m, low);
    assert n / k == |Share(a, low)|;
    CeilingStep(n, k);
  }

  lemma LowestIsFloor(ids: seq<string>, m: map<string, int>, low: string)
    requires |ids| > 0 && Distinct(ids) && low in ids && Level(ids, m)
    requires forall id :: id in ids ==> At(m, low) <= At(m, id)
    ensures Total(ids, m) / |ids| == At(m, low)
    ensures Total(ids, m) % |ids| == 0 ==> forall id :: id in ids ==> At(m, id) == At(m, low)
  {
    var base, k := At(m, low), |ids|;
    var floor := map id | id in ids :: base;
    TotalConst(ids, floor, base);
    TotalLe(ids, floor, m);
    BelowNext(ids, m, low);
    FloorOf(Total(ids, m), base, k);
  }

  lemma FloorOf(total: int, base: int, k: int)
    requires k > 0 && base * k <= total < (base + 1) * k
    ensures total / k == base
    ensures total % k == 0 ==> total == base * k
  {
    DivideBy(total, k, base, total - base * k);
  }

  lemma BelowNext(ids: seq<string>, m: map<string, int>, low: string)
    requires Distinct(ids) && low in ids
    requires forall id :: id in ids ==> At(m, id) <= At(m, low) + 1
    ensures Total(ids, m) < (At(m, low) + 1) * |ids|
  {
    var top := map id | id in ids :: At(m, low) + 1;
    TotalConst(ids, top, At(m, low) + 1);
    TotalLe(ids, m, top);
  }

  lemma CeilingStep(n: nat, k: nat)
    requires k > 0
    ensures (n + k - 1) / k == n / k + (if n % k == 0 then 0 else 1)
  {
    var q, r := n / k, n % k;
    assert n == q * k + r;
    if r == 0 {
      DivideBy(q * k + (k - 1), k, q, k - 1);
    } else {
      DivideBy((q + 1) * k + (r - 1), k, q + 1, r - 1);
    }
  }

  lemma DivideBy(n: int, k: int, q: int, r: int)
    requires 0 <= r < k && n == q * k + r
    ensures n / k == q
  {
    var d := n / k - q;
    assert d * k == r - n % k;
    if d >= 1 {
      AtLeastOnce(d, k);
    } else if d <= -1 {
      AtLeastOnce(-d, k);
    }
  }

  lemma AtLeastOnce(d: int, k: int)
    requires d >= 1 && k >= 0
    ensures d * k >= k
  {
  }

  // ---------------------------------------------------------------------------
  // planDistribution.

  ghost function Owned(profiles: set<Ownership>, id: string): set<Ownership> {
    set p | p in profiles && p.owner == id
  }

  ghost predicate DistinctProfiles(profiles: set<Ownership>) {
    forall p, q :: p in profiles && q in profiles && p.profileId == q.profileId ==> p == q
  }

  /** Separates the enabled profiles, counts the load of every live instance and
      lists the disabled profiles that still have an owner. */
  method SplitEnabled(ids: seq<string>, profiles: seq<Ownership>)
    returns (enabled: seq<Ownership>, load: map<string, int>, unassign: seq<int>)
    requires DistinctIds(profiles)
    ensures ToSet(enabled) == Enabled(profiles) && DistinctIds(enabled)
    ensures forall id :: id in load <==> id in ids
    ensures forall id :: id in ids ==> load[id] == |Owned(ToSet(enabled), id)|
    ensures forall id :: id in unassign <==>
              exists p :: p in profiles && p.profileId == id && !p.enabled && p.owner != ""
  {
    load := map id | id in ids :: 0;
    enabled, unassign := [], [];
    for i := 0 to |profiles|
      invariant forall id :: id in load <==> id in ids
      invariant forall p :: p in enabled <==> p in profiles[..i] && p.enabled
      invariant DistinctIds(enabled)
      invariant forall id :: id in ids ==> load[id] == |Owned(ToSet(enabled), id)|
      invariant forall id :: id in unassign <==>
                  exists p :: p in profiles[..i] && p.profileId == id && !p.enabled && p.owner != ""
    {
      var p := profiles[i];
      assert profiles[..i + 1] == profiles[..i] + [p];
      assert forall q :: q in profiles[..i] ==> q.profileId != p.profileId;
      if !p.enabled {
        if p.owner != "" {
          unassign := unassign + [p.profileId];
        }
      } else {
        ghost var before := enabled;
        enabled := enabled + [p];
        OwnedStep(ToSet(before), p);
        assert ToSet(enabled) == ToSet(before) + {p};
        if p.owner in load {
          load := load[p.owner := load[p.owner] + 1];
        }
      }
    }
  }

  lemma OwnedStep(profiles: set<Ownership>, p: Ownership)
    requires p !in profiles
    ensures forall id :: |Owned(profiles + {p}, id)| == |Owned(profiles, id)| + (if p.owner == id then 1 else 0)
  {
    forall id
      ensures |Owned(profiles + {p}, id)| == |Owned(profiles, id)| + (if p.owner == id then 1 else 0)
    {
      assert Owned(profiles + {p}, id) == Owned(profiles, id) + (if p.owner == id then {p} else {});
    }
  }

  /** The quotas are level, they add up to all the profiles, and no instance has a
      larger quota than a more loaded one. */
  ghost predicate FairQuotas(ids: seq<string>, enabled: set<Ownership>, quota: map<string, int>) {
    && Level(ids, quota)
    && (forall id :: id in ids ==> At(quota, id) >= 0)
    && (forall x, y :: x in ids && y in ids && At(quota, x) > At(quota, y) ==>
         |Owned(enabled, x)| >= |Owned(enabled, y)|)
    && Total(ids, quota) == |enabled|
  }

  /** Shares the profiles out; what the division leaves over goes where most profiles are. */
  method Quotas(ids: seq<string>, load: map<string, int>, count: nat, ghost enabled: set<Ownership>)
    returns (quota: map<string, int>)
    requires |ids| > 0 && Distinct(ids) && count == |enabled|
    requires forall id :: id in ids ==> At(load, id) == |Owned(enabled, id)|
    ensures forall id :: id in quota <==> id in ids
    ensures FairQuotas(ids, enabled, quota)
  {
    var byLoad := ByLoad(ids, load);
    var base, extra := count / |ids|, count % |ids|;
    quota := FillQuotas(byLoad, base, extra);
    DivisionParts(count, |ids|);
    FilledFairly(ids, byLoad, load, quota, enabled, base, extra);
  }

  lemma DivisionParts(n: nat, k: nat)
    requires k > 0
    ensures n == (n / k) * k + n % k && 0 <= n / k && 0 <= n % k < k
  {
  }

  lemma FilledFairly(ids: seq<string>, byLoad: seq<string>, load: map<string, int>, quota: map<string, int>,
                     enabled: set<Ownership>,
                     base: int, extra: int)
    requires multiset(byLoad) == multiset(ids) && |byLoad| == |ids| && forall id :: id in byLoad <==> id in ids
    requires base >= 0 && 0 <= extra < |ids| && |enabled| == base * |ids| + extra
    requires forall id :: id in ids ==> At(load, id) == |Owned(enabled, id)|
    requires forall i, j :: 0 <= i < j < |byLoad| ==> At(load, byLoad[j]) <= At(load, byLoad[i])
    requires forall j :: 0 <= j < |byLoad| ==> At(quota, byLoad[j]) == base + (if j < extra then 1 else 0)
    ensures FairQuotas(ids, enabled, quota)
  {
    QuotaOrder(byLoad, load, quota, base, extra);
    TotalSlots(byLoad, quota, base, extra);
    TotalPermutation(ids, byLoad, quota);
  }

  method ByLoad(ids: seq<string>, load: map<string, int>) returns (byLoad: seq<string>)
    requires Distinct(ids)
    ensures multiset(byLoad) == multiset(ids) && |byLoad| == |ids| && Distinct(byLoad)
    ensures forall id :: id in byLoad <==> id in ids
    ensures forall i, j :: 0 <= i < j < |byLoad| ==> At(load, byLoad[j]) <= At(load, byLoad[i])
  {
    var leq := (x: string, y: string) => At(load, y) <= At(load, x);
    byLoad := Sort(ids, leq);
    SortSorted(ids, leq);
    SameElements(ids, byLoad);
    DistinctPermutation(ids, byLoad);
  }

  method FillQuotas(byLoad: seq<string>, base: int, extra: int) returns (quota: map<string, int>)
    requires Distinct(byLoad)
    ensures forall id :: id in quota <==> id in byLoad
    ensures forall j :: 0 <= j < |byLoad| ==> quota[byLoad[j]] == base + (if j < extra then 1 else 0)
  {
    quota := map[];
    for i := 0 to |byLoad|
      invariant forall id :: id in quota <==> id in byLoad[..i]
      invariant forall j :: 0 <= j < i ==> quota[byLoad[j]] == base + (if j < extra then 1 else 0)
    {
      assert byLoad[..i + 1] == byLoad[..i] + [byLoad[i]];
      quota := quota[byLoad[i] := base];
      if i < extra {
        quota := quota[byLoad[i] := quota[byLoad[i]] + 1];
      }
    }
    assert byLoad[..|byLoad|] == byLoad;
  }

  lemma QuotaOrder(byLoad: seq<string>, load: map<string, int>, quota: map<string, int>, base: int, extra: int)
    requires forall i, j :: 0 <= i < j < |byLoad| ==> At(load, byLoad[j]) <= At(load, byLoad[i])
    requires forall j :: 0 <= j < |byLoad| ==> At(quota, byLoad[j]) == base + (if j < extra then 1 else 0)
    ensures forall x, y :: x in byLoad && y in byLoad && At(quota, x) > At(quota, y) ==> At(load, x) >= At(load, y)
    ensures forall x :: x in byLoad ==> base <= At(quota, x) <= base + (if extra <= 0 then 0 else 1)
  {
    forall x, y | x in byLoad && y in byLoad && At(quota, x) > At(quota, y) ensures At(load, x) >= At(load, y) {
      var i :| 0 <= i < |byLoad| && byLoad[i] == x;
      var j :| 0 <= j < |byLoad| && byLoad[j] == y;
    }
  }

  lemma {:induction false} TotalSlots(ids: seq<string>, quota: map<string, int>, base: int, extra: int)
    requires extra <= |ids|
    requires forall j :: 0 <= j < |ids| ==> At(quota, ids[j]) == base + (if j < extra then 1 else 0)
    ensures Total(ids, quota) == base * |ids| + (if extra < 0 then 0 else extra)
  {
    if ids != [] {
      forall j | 0 <= j < |ids| - 1
        ensures At(quota, ids[1..][j]) == base + (if j < extra - 1 then 1 else 0)
      {
        assert ids[1..][j] == ids[j + 1];
      }
      TotalSlots(ids[1..], quota, base, extra - 1);
    }
  }

  /** The outcome for the profiles seen so far: each live owner keeps as many as its
      quota allows, and a waiting profile has an owner that is full or not live. */
  ghost predicate Keeping(ids: seq<string>, seen: set<Ownership>, quota: map<string, int>,
                          kept: map<string, int>, stay: set<Ownership>, wait: set<Ownership>)
  {
    && stay !! wait && stay + wait == seen
    && (forall p :: p in stay ==> p.owner in ids)
    && (forall id :: id in ids ==> At(kept, id) == |Owned(stay, id)|)
    && (forall id :: id in ids ==> At(kept, id) == Least(|Owned(seen, id)|, At(quota, id)))
    && (forall p :: p in wait && p.owner in ids ==> At(kept, p.owner) == At(quota, p.owner))
  }

  lemma KeepStep(ids: seq<string>, seen: set<Ownership>, quota: map<string, int>,
                 kept: map<string, int>, stay: set<Ownership>, wait: set<Ownership>, p: Ownership)
    requires Keeping(ids, seen, quota, kept, stay, wait) && p !in seen
    requires p.owner in ids && At(kept, p.owner) < At(quota, p.owner)
    ensures Keeping(ids, seen + {p}, quota, kept[p.owner := At(kept, p.owner) + 1], stay + {p}, wait)
  {
    OwnedStep(seen, p);
    OwnedStep(stay, p);
  }

  lemma WaitStep(ids: seq<string>, seen: set<Ownership>, quota: map<string, int>,
                 kept: map<string, int>, stay: set<Ownership>, wait: set<Ownership>, p: Ownership)
    requires Keeping(ids, seen, quota, kept, stay, wait) && p !in seen
    requires p.owner in ids ==> At(kept, p.owner) >= At(quota, p.owner)
    ensures Keeping(ids, seen + {p}, quota, kept, stay, wait + {p})
  {
    OwnedStep(seen, p);
  }

  /** The waiting profiles are listed by id, and all of them were seen. */
  ghost predicate Waiting(pending: seq<int>, move: seq<Ownership>, seen: seq<Ownership>) {
    && |pending| == |move| && DistinctIds(move)
    && (forall j :: 0 <= j < |move| ==> pending[j] == move[j].profileId)
    && (forall p :: p in move ==> p in seen)
  }

  lemma SeenStep(enabled: seq<Ownership>, i: nat)
    requires DistinctIds(enabled) && i < |enabled|
    ensures ToSet(enabled[..i + 1]) == ToSet(enabled[..i]) + {enabled[i]} && enabled[i] !in ToSet(enabled[..i])
    ensures forall q :: q in enabled[..i] ==> q.profileId != enabled[i].profileId && q in enabled[..i + 1]
  {
    assert enabled[..i + 1] == enabled[..i] + [enabled[i]];
  }

  lemma WaitingStep(pending: seq<int>, move: seq<Ownership>, enabled: seq<Ownership>, i: nat)
    requires DistinctIds(enabled) && i < |enabled| && Waiting(pending, move, enabled[..i])
    ensures Waiting(pending, move, enabled[..i + 1])
    ensures Waiting(pending + [enabled[i].profileId], move + [enabled[i]], enabled[..i + 1])
    ensures ToSet(move + [enabled[i]]) == ToSet(move) + {enabled[i]}
  {
    SeenStep(enabled, i);
    assert enabled[..i + 1][i] == enabled[i];
  }

  /** Every owner keeps its first profiles up to its quota; the rest wait. */
  method KeepOwners(ids: seq<string>, enabled: seq<Ownership>, quota: map<string, int>)
    returns (kept: map<string, int>, pending: seq<int>, ghost stay: set<Ownership>, ghost move: seq<Ownership>)
    requires DistinctIds(enabled)
    requires forall id :: id in quota <==> id in ids
    requires forall id :: id in ids ==> At(quota, id) >= 0
    ensures |pending| == |move| && DistinctIds(move)
    ensures forall j :: 0 <= j < |move| ==> pending[j] == move[j].profileId
    ensures forall id :: id in ids ==> At(kept, id) == Least(|Owned(ToSet(enabled), id)|, At(quota, id))
    ensures Keeping(ids, ToSet(enabled), quota, kept, stay, ToSet(move))
  {
    kept, pending, stay, move := map[], [], {}, [];
    for i := 0 to |enabled|
      invariant Waiting(pending, move, enabled[..i])
      invariant Keeping(ids, ToSet(enabled[..i]), quota, kept, stay, ToSet(move))
    {
      var p := enabled[i];
      SeenStep(enabled, i);
      WaitingStep(pending, move, enabled, i);
      if p.owner in quota && At(kept, p.owner) < quota[p.owner] {
        KeepStep(ids, ToSet(enabled[..i]), quota, kept, stay, ToSet(move), p);
        kept := kept[p.owner := At(kept, p.owner) + 1];
        stay := stay + {p};
      } else {
        WaitStep(ids, ToSet(enabled[..i]), quota, kept, stay, ToSet(move), p);
        pending := pending + [p.profileId];
        move := move + [p];
      }
    }
    assert enabled[..|enabled|] == enabled;
  }

  /** The instance with the most spare quota; ties go to the first one. */
  method PickTarget(ids: seq<string>, quota: map<string, int>, kept: map<string, int>) returns (target: string)
    requires |ids| > 0
    requires Total(ids, kept) < Total(ids, quota)
    ensures target in ids
    ensures forall id :: id in ids ==> At(quota, id) - At(kept, id) <= At(quota, target) - At(kept, target)
    ensures At(kept, target) < At(quota, target)
  {
    target := ids[0];
    for i := 1 to |ids|
      invariant target in ids[..i]
      invariant forall id :: id in ids[..i] ==> At(quota, id) - At(kept, id) <= At(quota, target) - At(kept, target)
    {
      assert ids[..i + 1] == ids[..i] + [ids[i]];
      if At(quota, ids[i]) - At(kept, ids[i]) > At(quota, target) - At(kept, target) {
        target := ids[i];
      }
    }
    assert ids[..|ids|] == ids;
    if forall id :: id in ids ==> At(quota, id) <= At(kept, id) {
      TotalLe(ids, quota, kept);
    }
  }

  /** The waiting profiles sent to one instance by the first assignments. */
  ghost function SentTo(assign: seq<Assignment>, move: seq<Ownership>, id: string): set<Ownership>
    requires |assign| <= |move|
  {
    set j | 0 <= j < |assign| && assign[j].instanceId == id :: move[j]
  }

  lemma SentStep(assign: seq<Assignment>, move: seq<Ownership>, a: Assignment)
    requires |assign| < |move| && DistinctIds(move)
    ensures forall id :: |SentTo(assign + [a], move, id)| == |SentTo(assign, move, id)|
              + (if a.instanceId == id then 1 else 0)
  {
    var next := move[|assign|];
    forall id
      ensures |SentTo(assign + [a], move, id)| == |SentTo(assign, move, id)| + (if a.instanceId == id then 1 else 0)
    {
      assert next !in SentTo(assign, move, id);
      assert SentTo(assign + [a], move, id) == SentTo(assign, move, id)
               + (if a.instanceId == id then {next} else {}) by {
        forall j | 0 <= j < |assign + [a]| && (assign + [a])[j].instanceId == id
          ensures move[j] in SentTo(assign, move, id) + (if a.instanceId == id then {next} else {})
        {
          if j < |assign| {
            assert assign[j].instanceId == id;
          }
        }
        forall j | 0 <= j < |assign| && assign[j].instanceId == id
          ensures move[j] in SentTo(assign + [a], move, id)
        {
          assert (assign + [a])[j] == assign[j];
        }
        assert (assign + [a])[|assign|] == a;
      }
    }
  }

  lemma TotalStep(ids: seq<string>, m: map<string, int>, id: string)
    requires Distinct(ids) && id in ids
    ensures Total(ids, m[id := At(m, id) + 1]) == Total(ids, m) + 1
  {
    var k :| 0 <= k < |ids| && ids[k] == id;
    var rest := ids[..k] + ids[k + 1..];
    var next := m[id := At(m, id) + 1];
    TotalRemove(ids, k, m);
    TotalRemove(ids, k, next);
    TotalLe(rest, m, next);
    TotalLe(rest, next, m);
  }

  /** Fills the spare quota; the chosen target always has some. */
  method AssignPending(ids: seq<string>, quota: map<string, int>, start: map<string, int>, pending: seq<int>,
                       ghost move: seq<Ownership>)
    returns (assign: seq<Assignment>)
    requires |ids| > 0 && Distinct(ids) && DistinctIds(move)
    requires |pending| == |move| && forall j :: 0 <= j < |move| ==> pending[j] == move[j].profileId
    requires forall id :: id in ids ==> At(start, id) <= At(quota, id)
    requires Total(ids, start) + |pending| == Total(ids, quota)
    ensures |assign| == |pending|
    ensures forall j :: 0 <= j < |assign| ==> assign[j].profileId == pending[j] && assign[j].instanceId in ids
    ensures forall j :: 0 <= j < |assign| ==> At(start, assign[j].instanceId) < At(quota, assign[j].instanceId)
    ensures forall id :: id in ids ==> At(start, id) + |SentTo(assign, move, id)| == At(quota, id)
  {
    var kept := start;
    assign := [];
    for i := 0 to |pending|
      invariant |assign| == i
      invariant forall j :: 0 <= j < i ==> assign[j].profileId == pending[j] && assign[j].instanceId in ids
      invariant forall j :: 0 <= j < i ==> At(start, assign[j].instanceId) < At(quota, assign[j].instanceId)
      invariant forall id :: id in ids ==> At(kept, id) == At(start, id) + |SentTo(assign, move, id)|
      invariant forall id :: id in ids ==> At(kept, id) <= At(quota, id)
      invariant Total(ids, kept) == Total(ids, start) + i
    {
      var target := PickTarget(ids, quota, kept);
      TotalStep(ids, kept, target);
      kept := kept[target := At(kept, target) + 1];
      SentStep(assign, move, Assignment(pending[i], target));
      assign := assign + [Assignment(pending[i], target)];
    }
    TotalLe(ids, kept, quota);
  }

  // ---------------------------------------------------------------------------
  // Why the steps together keep the promise.

  lemma {:induction false} TargetUntouched(assign: seq<Assignment>, p: Ownership)
    requires forall j :: 0 <= j < |assign| ==> assign[j].profileId != p.profileId
    ensures Target(assign, p) == p.owner
  {
    if assign != [] {
      TargetUntouched(assign[..|assign| - 1], p);
    }
  }

  lemma {:induction false} TargetMoved(assign: seq<Assignment>, p: Ownership, k: nat)
    requires k < |assign| && assign[k].profileId == p.profileId
    requires forall j :: 0 <= j < |assign| && j != k ==> assign[j].profileId != p.profileId
    ensures Target(assign, p) == assign[k].instanceId
  {
    if k < |assign| - 1 {
      TargetMoved(assign[..|assign| - 1], p, k);
    }
  }

  lemma {:induction false} SizeOfSeq(profiles: seq<Ownership>)
    requires DistinctIds(profiles)
    ensures |ToSet(profiles)| == |profiles|
  {
    if profiles != [] {
      var last := |profiles| - 1;
      SizeOfSeq(profiles[..last]);
      assert profiles == profiles[..last] + [profiles[last]];
      assert ToSet(profiles) == ToSet(profiles[..last]) + {profiles[last]};
    }
  }

  /** The state planDistribution has reached when it returns. */
  ghost predicate Planning(ids: seq<string>, enabled: set<Ownership>, quota: map<string, int>, kept: map<string, int>,
                           stay: set<Ownership>, move: seq<Ownership>, plan: Plan)
  {
    && |ids| > 0 && Distinct(ids) && DistinctProfiles(enabled)
    && DistinctIds(move) && |plan.assign| == |move|
    && Keeping(ids, enabled, quota, kept, stay, ToSet(move))
    && (forall p :: p in enabled ==> p.profileId !in plan.unassign)
    && (forall j :: 0 <= j < |move| ==>
          && plan.assign[j].profileId == move[j].profileId
          && plan.assign[j].instanceId in ids
          && At(kept, plan.assign[j].instanceId) < At(quota, plan.assign[j].instanceId))
    && (forall id :: id in ids ==> At(kept, id) + |SentTo(plan.assign, move, id)| == At(quota, id))
  }

  lemma PlannedOwners(ids: seq<string>, enabled: set<Ownership>, quota: map<string, int>, kept: map<string, int>,
                      stay: set<Ownership>, move: seq<Ownership>, plan: Plan)
    requires Planning(ids, enabled, quota, kept, stay, move, plan)
    ensures forall p :: p in stay ==> NewOwner(plan, p) == p.owner
    ensures forall j :: 0 <= j < |move| ==> NewOwner(plan, move[j]) == plan.assign[j].instanceId
  {
    forall p | p in stay ensures NewOwner(plan, p) == p.owner {
      assert p in enabled;
      forall j | 0 <= j < |move| ensures plan.assign[j].profileId != p.profileId {
        assert move[j] in ToSet(move) && move[j] in enabled;
      }
      TargetUntouched(plan.assign, p);
    }
    forall j | 0 <= j < |move| ensures NewOwner(plan, move[j]) == plan.assign[j].instanceId {
      assert move[j] in ToSet(move) && move[j] in enabled;
      TargetMoved(plan.assign, move[j], j);
    }
  }

  /** Every instance ends with exactly its quota. */
  lemma PlannedShares(ids: seq<string>, enabled: set<Ownership>, quota: map<string, int>, kept: map<string, int>,
                      stay: set<Ownership>, move: seq<Ownership>, plan: Plan, id: string)
    requires Planning(ids, enabled, quota, kept, stay, move, plan) && id in ids
    ensures |Share(Planned(plan, enabled), id)| == At(quota, id)
  {
    PlannedOwners(ids, enabled, quota, kept, stay, move, plan);
    var sent := SentTo(plan.assign, move, id);
    forall j | 0 <= j < |move| ensures move[j] in ToSet(move) && move[j] in enabled { }
    assert Share(Planned(plan, enabled), id) == Owned(stay, id) + sent by {
      forall p | p in enabled && NewOwner(plan, p) == id ensures p in Owned(stay, id) + sent {
        if p !in stay {
          assert p in ToSet(move);
          var j :| 0 <= j < |move| && move[j] == p;
        }
      }
    }
    assert Owned(stay, id) !! sent;
  }

  lemma MovesAway(ids: seq<string>, enabled: set<Ownership>, quota: map<string, int>, kept: map<string, int>,
                  stay: set<Ownership>, move: seq<Ownership>, plan: Plan, p: Ownership)
    requires Planning(ids, enabled, quota, kept, stay, move, plan) && p in ToSet(move)
    ensures NewOwner(plan, p) != p.owner && NewOwner(plan, p) in ids
  {
    PlannedOwners(ids, enabled, quota, kept, stay, move, plan);
    var j :| 0 <= j < |move| && move[j] == p;
    assert NewOwner(plan, p) == plan.assign[j].instanceId;
  }

  lemma StaysExactly(ids: seq<string>, enabled: set<Ownership>, quota: map<string, int>, kept: map<string, int>,
                     stay: set<Ownership>, move: seq<Ownership>, plan: Plan, p: Ownership)
    requires Planning(ids, enabled, quota, kept, stay, move, plan) && p in enabled
    ensures NewOwner(plan, p) in ids
    ensures NewOwner(plan, p) == p.owner <==> p in stay
  {
    assert p in stay || p in ToSet(move);
    if p in stay {
      PlannedOwners(ids, enabled, quota, kept, stay, move, plan);
    } else {
      MovesAway(ids, enabled, quota, kept, stay, move, plan, p);
    }
  }

  lemma StaySize(enabled: set<Ownership>, stay: set<Ownership>, move: seq<Ownership>)
    requires DistinctIds(move) && stay !! ToSet(move) && stay + ToSet(move) == enabled
    ensures |move| == |enabled| - |stay|
  {
    SizeOfSeq(move);
  }

  /** Only the waiting profiles move, and each of them really does. */
  lemma PlannedKept(ids: seq<string>, enabled: set<Ownership>, quota: map<string, int>, kept: map<string, int>,
                    stay: set<Ownership>, move: seq<Ownership>, plan: Plan)
    requires Planning(ids, enabled, quota, kept, stay, move, plan)
    ensures Kept(Planned(plan, enabled)) == stay
    ensures |plan.assign| == |enabled| - |stay|
    ensures forall p :: p in enabled ==> NewOwner(plan, p) in ids
  {
    StaySize(enabled, stay, move);
    forall p | p in enabled
      ensures NewOwner(plan, p) in ids
      ensures NewOwner(plan, p) == p.owner <==> p in stay
    {
      StaysExactly(ids, enabled, quota, kept, stay, move, plan, p);
    }
    KeptIs(Planned(plan, enabled), stay);
  }

  lemma KeptIs(a: map<Ownership, string>, stay: set<Ownership>)
    requires stay <= a.Keys
    requires forall p :: p in a ==> (a[p] == p.owner <==> p in stay)
    ensures Kept(a) == stay
  {
  }

  lemma CurrentShares(ids: seq<string>, enabled: set<Ownership>, id: string)
    requires id in ids
    ensures At(Shares(ids, Current(enabled)), id) == |Owned(enabled, id)|
  {
    assert Share(Current(enabled), id) == Owned(enabled, id);
  }

  lemma KeptTotal(ids: seq<string>, enabled: set<Ownership>, quota: map<string, int>, kept: map<string, int>,
                  stay: set<Ownership>, wait: set<Ownership>, load: map<string, int>)
    requires Distinct(ids) && Keeping(ids, enabled, quota, kept, stay, wait)
    requires forall id :: id in ids ==> At(load, id) == |Owned(enabled, id)|
    ensures Total(ids, MinOf(ids, load, quota)) == |stay|
  {
    StayTotal(ids, kept, stay);
    TotalLe(ids, MinOf(ids, load, quota), kept);
    TotalLe(ids, kept, MinOf(ids, load, quota));
  }

  /** No even distribution keeps more profiles than the plan does. */
  lemma PlannedBest(ids: seq<string>, enabled: set<Ownership>, quota: map<string, int>, kept: map<string, int>,
                    stay: set<Ownership>, wait: set<Ownership>, other: map<Ownership, string>)
    requires |ids| > 0 && Distinct(ids)
    requires Keeping(ids, enabled, quota, kept, stay, wait)
    requires FairQuotas(ids, enabled, quota)
    requires other.Keys == enabled && Even(ids, other)
    ensures |Kept(other)| <= |stay|
  {
    var load, shares := Shares(ids, Current(enabled)), Shares(ids, other);
    forall id | id in ids ensures At(load, id) == |Owned(enabled, id)| {
      CurrentShares(ids, enabled, id);
    }
    KeptBound(ids, enabled, other);
    assert Total(ids, MinOf(ids, load, shares)) <= Total(ids, MinOf(ids, load, quota)) by {
      EvenTotal(ids, other);
      assert Level(ids, shares);
      var base := CommonBase(ids, quota, shares);
      QuotaBest(ids, load, quota, shares, base);
    }
    KeptTotal(ids, enabled, quota, kept, stay, wait, load);
  }

  lemma StayTotal(ids: seq<string>, kept: map<string, int>, stay: set<Ownership>)
    requires Distinct(ids)
    requires forall p :: p in stay ==> p.owner in ids
    requires forall id :: id in ids ==> At(kept, id) == |Owned(stay, id)|
    ensures Total(ids, kept) == |stay|
  {
    var now := Current(stay);
    forall id | id in ids ensures At(kept, id) == |Share(now, id)| {
      assert Share(now, id) == Owned(stay, id);
    }
    TotalShares(ids, kept, now);
    assert (set p | p in now && now[p] in ids) == stay;
  }

  lemma DisabledOwners(profiles: seq<Ownership>, plan: Plan, p: Ownership)
    requires DistinctIds(profiles) && p in profiles && !p.enabled
    requires forall id :: id in plan.unassign <==>
               exists q :: q in profiles && q.profileId == id && !q.enabled && q.owner != ""
    requires forall j :: 0 <= j < |plan.assign| ==> plan.assign[j].profileId != p.profileId
    ensures NewOwner(plan, p) == ""
  {
    TargetUntouched(plan.assign, p);
    TargetUntouched(plan.assign, p.(owner := ""));
  }

  lemma SameProfile(profiles: seq<Ownership>, p: Ownership, q: Ownership)
    requires DistinctIds(profiles) && p in profiles && q in profiles
    ensures p.profileId == q.profileId ==> p == q
  {
    var i :| 0 <= i < |profiles| && profiles[i] == p;
    var j :| 0 <= j < |profiles| && profiles[j] == q;
    if i < j {
      assert profiles[i].profileId != profiles[j].profileId;
    } else if j < i {
      assert profiles[j].profileId != profiles[i].profileId;
    }
  }

  method SortById(enabled: seq<Ownership>) returns (sorted: seq<Ownership>)
    requires DistinctIds(enabled)
    ensures ToSet(sorted) == ToSet(enabled) && |sorted| == |enabled| && DistinctIds(sorted)
    ensures forall i, j :: 0 <= i < j < |sorted| ==> sorted[i].profileId < sorted[j].profileId
  {
    var leq := (p: Ownership, q: Ownership) => p.profileId <= q.profileId;
    sorted := Sort(enabled, leq);
    SortSorted(enabled, leq);
    SameElements(enabled, sorted);
    DistinctPermutation(enabled, sorted);
    forall i, j | 0 <= i < j < |sorted| ensures sorted[i].profileId < sorted[j].profileId {
      assert leq(sorted[i], sorted[j]) && sorted[i] != sorted[j];
      SameProfile(enabled, sorted[i], sorted[j]);
    }
  }

  lemma LiveDistinct(instances: seq<string>)
    ensures Distinct(Live(instances)) && forall id :: id in Live(instances) <==> id in instances
  {
    LexOrder();
    SortSorted(instances, LexLeq);
    CompactStrict(Sort(instances, LexLeq), LexLeq);
    SameElements(instances, Sort(instances, LexLeq));
  }

  lemma PendingFits(ids: seq<string>, enabled: seq<Ownership>, quota: map<string, int>, kept: map<string, int>,
                    stay: set<Ownership>, move: seq<Ownership>)
    requires Distinct(ids) && DistinctIds(enabled) && DistinctIds(move)
    requires Keeping(ids, ToSet(enabled), quota, kept, stay, ToSet(move))
    ensures Total(ids, kept) + |move| == |enabled|
    ensures forall id :: id in ids ==> At(kept, id) <= At(quota, id)
  {
    SizeOfSeq(enabled);
    SizeOfSeq(move);
    StayTotal(ids, kept, stay);
    assert ToSet(enabled) == stay + ToSet(move);
  }

  method PlanDistribution(instances: seq<string>, profiles: seq<Ownership>) returns (plan: Plan)
    requires DistinctIds(profiles)
    ensures Promised(instances, profiles, plan)
  {
    var ids := Live(instances);
    LiveDistinct(instances);
    if |ids| == 0 {
      return Plan([], []);
    }

    var found, load, unassign := SplitEnabled(ids, profiles);
    var enabled := SortById(found);
    SizeOfSeq(enabled);
    var quota := Quotas(ids, load, |enabled|, ToSet(enabled));
    plan := PlanMoves(ids, enabled, quota, unassign, profiles);
  }

  /** The two passes over the enabled profiles: keep, then send. */
  method PlanMoves(ids: seq<string>, enabled: seq<Ownership>, quota: map<string, int>, unassign: seq<int>,
                   ghost profiles: seq<Ownership>)
    returns (plan: Plan)
    requires |ids| > 0 && Distinct(ids) && DistinctIds(profiles) && DistinctIds(enabled)
    requires ToSet(enabled) == Enabled(profiles) && |enabled| == |Enabled(profiles)|
    requires forall id :: id in quota <==> id in ids
    requires FairQuotas(ids, Enabled(profiles), quota)
    requires forall id :: id in unassign <==>
               exists p :: p in profiles && p.profileId == id && !p.enabled && p.owner != ""
    ensures Even(ids, Planned(plan, Enabled(profiles)))
    ensures Released(profiles, plan)
    ensures FewestMoves(ids, Enabled(profiles), plan)
  {
    var kept, pending, stay, move := KeepOwners(ids, enabled, quota);
    PendingFits(ids, enabled, quota, kept, stay, move);
    var assign := AssignPending(ids, quota, kept, pending, move);
    plan := Plan(assign, unassign);
    EnabledDistinct(profiles);
    PlannedUnassign(profiles, plan);
    PlanEven(ids, Enabled(profiles), quota, kept, stay, move, plan);
    PlanFewest(ids, Enabled(profiles), quota, kept, stay, move, plan);
    PlanReleases(ids, profiles, quota, kept, stay, move, plan);
  }

  lemma PlannedUnassign(profiles: seq<Ownership>, plan: Plan)
    requires DistinctIds(profiles)
    requires forall id :: id in plan.unassign <==>
               exists p :: p in profiles && p.profileId == id && !p.enabled && p.owner != ""
    ensures forall p :: p in Enabled(profiles) ==> p.profileId !in plan.unassign
  {
    forall p, q | p in Enabled(profiles) && q in profiles && !q.enabled ensures p.profileId != q.profileId {
      SameProfile(profiles, p, q);
    }
  }

  lemma PlanEven(ids: seq<string>, enabled: set<Ownership>, quota: map<string, int>, kept: map<string, int>,
                 stay: set<Ownership>, move: seq<Ownership>, plan: Plan)
    requires Planning(ids, enabled, quota, kept, stay, move, plan)
    requires Level(ids, quota)
    ensures Even(ids, Planned(plan, enabled))
  {
    PlannedKept(ids, enabled, quota, kept, stay, move, plan);
    PlannedLoads(ids, enabled, quota, kept, stay, move, plan);
    LevelIsEven(ids, quota, Planned(plan, enabled));
  }

  lemma PlanFewest(ids: seq<string>, enabled: set<Ownership>, quota: map<string, int>, kept: map<string, int>,
                   stay: set<Ownership>, move: seq<Ownership>, plan: Plan)
    requires Planning(ids, enabled, quota, kept, stay, move, plan)
    requires FairQuotas(ids, enabled, quota)
    ensures FewestMoves(ids, enabled, plan)
  {
    PlannedKept(ids, enabled, quota, kept, stay, move, plan);
    forall other: map<Ownership, string> | other.Keys == enabled && Even(ids, other)
      ensures |plan.assign| <= |enabled| - |Kept(other)|
    {
      PlannedBest(ids, enabled, quota, kept, stay, ToSet(move), other);
    }
  }

  lemma PlanReleases(ids: seq<string>, profiles: seq<Ownership>, quota: map<string, int>, kept: map<string, int>,
                     stay: set<Ownership>, move: seq<Ownership>, plan: Plan)
    requires DistinctIds(profiles) && Planning(ids, Enabled(profiles), quota, kept, stay, move, plan)
    requires forall id :: id in plan.unassign <==>
               exists p :: p in profiles && p.profileId == id && !p.enabled && p.owner != ""
    ensures Released(profiles, plan)
  {
    forall p | p in profiles && !p.enabled ensures NewOwner(plan, p) == "" {
      forall j | 0 <= j < |plan.assign| ensures plan.assign[j].profileId != p.profileId {
        assert move[j] in ToSet(move) && move[j] in Enabled(profiles);
        SameProfile(profiles, p, move[j]);
      }
      DisabledOwners(profiles, plan, p);
    }
  }

  lemma PlannedLoads(ids: seq<string>, enabled: set<Ownership>, quota: map<string, int>, kept: map<string, int>,
                     stay: set<Ownership>, move: seq<Ownership>, plan: Plan)
    requires Planning(ids, enabled, quota, kept, stay, move, plan)
    ensures forall id :: id in ids ==> |Share(Planned(plan, enabled), id)| == At(quota, id)
  {
    forall id | id in ids ensures |Share(Planned(plan, enabled), id)| == At(quota, id) {
      PlannedShares(ids, enabled, quota, kept, stay, move, plan, id);
    }
  }

  lemma LevelIsEven(ids: seq<string>, quota: map<string, int>, a: map<Ownership, string>)
    requires Level(ids, quota)
    requires forall p :: p in a ==> a[p] in ids
    requires forall id :: id in ids ==> |Share(a, id)| == At(quota, id)
    ensures Even(ids, a)
  {
  }

  // ---------------------------------------------------------------------------
  // One round is enough.

  function Moved(plan: Plan, p: Ownership): Ownership {
    p.(owner := NewOwner(plan, p))
  }

  ghost function MovedAll(plan: Plan, profiles: set<Ownership>): set<Ownership> {
    set p | p in profiles :: Moved(plan, p)
  }

  lemma AppliedEnabled(plan: Plan, profiles: seq<Ownership>)
    ensures Enabled(Apply(plan, profiles)) == MovedAll(plan, Enabled(profiles))
  {
    var next := Apply(plan, profiles);
    forall p | p in Enabled(profiles) ensures Moved(plan, p) in Enabled(next) {
      var i :| 0 <= i < |profiles| && profiles[i] == p;
      assert next[i] == Moved(plan, p);
    }
    forall q | q in Enabled(next) ensures q in MovedAll(plan, Enabled(profiles)) {
      var i :| 0 <= i < |next| && next[i] == q;
      assert profiles[i] in Enabled(profiles) && q == Moved(plan, profiles[i]);
    }
  }

  lemma {:induction false} MovedSize(plan: Plan, profiles: set<Ownership>)
    requires DistinctProfiles(profiles)
    ensures |MovedAll(plan, profiles)| == |profiles|
  {
    if p :| p in profiles {
      MovedSize(plan, profiles - {p});
      var rest := MovedAll(plan, profiles - {p});
      assert Moved(plan, p) !in rest;
      assert MovedAll(plan, profiles) == rest + {Moved(plan, p)} by {
        forall q | q in profiles ensures Moved(plan, q) in rest + {Moved(plan, p)} {
          if q != p {
            assert q in profiles - {p};
          }
        }
      }
    }
  }

  /** An even plan, once applied, is an even current distribution. */
  lemma AppliedEven(ids: seq<string>, plan: Plan, enabled: set<Ownership>)
    requires |ids| > 0 && DistinctProfiles(enabled) && Even(ids, Planned(plan, enabled))
    ensures Even(ids, Current(MovedAll(plan, enabled)))
  {
    var a, b := Planned(plan, enabled), Current(MovedAll(plan, enabled));
    MovedSize(plan, enabled);
    assert a.Keys == enabled && b.Keys == MovedAll(plan, enabled);
    forall id | id in ids ensures |Share(b, id)| == |Share(a, id)| {
      AppliedShare(plan, enabled, id);
    }
  }

  lemma AppliedShare(plan: Plan, enabled: set<Ownership>, id: string)
    requires DistinctProfiles(enabled)
    ensures |Share(Current(MovedAll(plan, enabled)), id)| == |Share(Planned(plan, enabled), id)|
  {
    var mine := Share(Planned(plan, enabled), id);
    MovedSize(plan, mine);
    assert Share(Current(MovedAll(plan, enabled)), id) == MovedAll(plan, mine) by {
      forall p | p in enabled && Moved(plan, p).owner == id ensures Moved(plan, p) in MovedAll(plan, mine) {
        assert p in mine;
      }
    }
  }

  lemma EnabledDistinct(profiles: seq<Ownership>)
    requires DistinctIds(profiles)
    ensures DistinctProfiles(Enabled(profiles))
  {
    forall p, q | p in Enabled(profiles) && q in Enabled(profiles) && p.profileId == q.profileId ensures p == q {
      SameProfile(profiles, p, q);
    }
  }

  lemma AppliedDisabled(profiles: seq<Ownership>, plan: Plan)
    requires Released(profiles, plan)
    ensures forall p :: p in Apply(plan, profiles) && !p.enabled ==> p.owner == ""
  {
    var next := Apply(plan, profiles);
    forall p | p in next && !p.enabled ensures p.owner == "" {
      var i :| 0 <= i < |next| && next[i] == p;
      assert profiles[i] in profiles;
    }
  }

  lemma AlreadyEven(ids: seq<string>, enabled: set<Ownership>, again: Plan)
    requires Even(ids, Current(enabled)) && FewestMoves(ids, enabled, again)
    ensures again.assign == []
  {
    assert Current(enabled).Keys == enabled && Kept(Current(enabled)) == enabled;
  }

  lemma NothingReleased(profiles: seq<Ownership>, again: Plan)
    requires Released(profiles, again)
    requires forall p :: p in profiles && !p.enabled ==> p.owner == ""
    ensures again.unassign == []
  {
    assert forall id :: id !in again.unassign;
    FirstIn(again.unassign);
  }

  lemma FirstIn(ids: seq<int>)
    ensures ids != [] ==> ids[0] in ids
  {
  }

  /** Planning again on the result of a plan changes nothing. */
  lemma OneRound(instances: seq<string>, profiles: seq<Ownership>, plan: Plan, again: Plan)
    requires DistinctIds(profiles)
    requires Promised(instances, profiles, plan)
    requires Promised(instances, Apply(plan, profiles), again)
    ensures again == Plan([], [])
  {
    var ids := Live(instances);
    if |ids| > 0 {
      var next := Apply(plan, profiles);
      assert Even(ids, Current(Enabled(next))) by {
        EnabledDistinct(profiles);
        AppliedEnabled(plan, profiles);
        AppliedEven(ids, plan, Enabled(profiles));
      }
      AlreadyEven(ids, Enabled(next), again);
      AppliedDisabled(profiles, plan);
      NothingReleased(next, again);
    }
  }

  /** A round plans nothing if and only if the owners are even and no disabled profile has
      one. */
  lemma NothingToDo(instances: seq<string>, profiles: seq<Ownership>, plan: Plan)
    requires DistinctIds(profiles) && |Live(instances)| > 0 && Promised(instances, profiles, plan)
    ensures plan == Plan([], []) <==>
              && Even(Live(instances), Current(Enabled(profiles)))
              && forall p :: p in profiles && !p.enabled ==> p.owner == ""
  {
    var ids, enabled := Live(instances), Enabled(profiles);
    if plan == Plan([], []) {
      assert forall p :: NewOwner(plan, p) == p.owner;
      assert Planned(plan, enabled) == Current(enabled);
    }
    if Even(ids, Current(enabled)) && forall p :: p in profiles && !p.enabled ==> p.owner == "" {
      AlreadyEven(ids, enabled, plan);
      NothingReleased(profiles, plan);
    }
  }
}
