/** Building a rotation plan: the targets are sorted, checked and hashed. */
module RotationPlans {
  import opened Protocol
  import opened RotationMessages

  // ---------------------------------------------------------------------------------------------
  // The order of connectors

  predicate AtMost(a: string, b: string) { !Below(b, a) }

  lemma {:induction false} BelowIsTotal(a: string, b: string)
    ensures Below(a, b) || a == b || Below(b, a)
    ensures !(Below(a, b) && Below(b, a)) && !(Below(a, b) && a == b)
    decreases |a|
  {
    if a != "" && b != "" {
      BelowIsTotal(a[1..], b[1..]);
      assert a[0] == b[0] && a[1..] == b[1..] ==> a == b by {
        assert a == [a[0]] + a[1..] && b == [b[0]] + b[1..];
      }
    }
  }

  lemma {:induction false} BelowIsTransitive(a: string, b: string, c: string)
    requires Below(a, b) && Below(b, c)
    ensures Below(a, c)
    decreases |a|
  {
    if a != "" && a[0] == b[0] && b[0] == c[0] {
      BelowIsTransitive(a[1..], b[1..], c[1..]);
    }
  }

  lemma AtMostIsTransitive(a: string, b: string, c: string)
    requires AtMost(a, b) && AtMost(b, c)
    ensures AtMost(a, c)
  {
    BelowIsTotal(a, b);
    BelowIsTotal(b, c);
    BelowIsTotal(a, c);
    if a != b && b != c { BelowIsTransitive(a, b, c); }
  }

  predicate Before(t: Target, u: Target) { AtMost(t.connector, u.connector) }

  predicate Ordered(targets: seq<Target>) {
    forall i, j {:trigger Before(targets[i], targets[j])} :: 0 <= i < j < |targets| ==> Before(targets[i], targets[j])
  }

  predicate StrictlyOrdered(targets: seq<Target>) {
    forall i, j {:trigger Below(targets[i].connector, targets[j].connector)} ::
      0 <= i && j == i + 1 < |targets| ==> Below(targets[i].connector, targets[j].connector)
  }

  // ---------------------------------------------------------------------------------------------
  // Sorting

  lemma InsertKeepsOrder(sorted: seq<Target>, k: nat, x: Target)
    requires k <= |sorted| && Ordered(sorted)
    requires k > 0 ==> Before(sorted[k - 1], x)
    requires k < |sorted| ==> Before(x, sorted[k])
    ensures Ordered(sorted[..k] + [x] + sorted[k..])
  {
    var r := sorted[..k] + [x] + sorted[k..];
    forall i | 0 <= i < k ensures Before(sorted[i], x) {
      if i < k - 1 {
        assert Before(sorted[i], sorted[k - 1]);
        AtMostIsTransitive(sorted[i].connector, sorted[k - 1].connector, x.connector);
      }
    }
    forall i | k <= i < |sorted| ensures Before(x, sorted[i]) {
      if i > k {
        assert Before(sorted[k], sorted[i]);
        AtMostIsTransitive(x.connector, sorted[k].connector, sorted[i].connector);
      }
    }
    forall i, j | 0 <= i < j < |r| ensures Before(r[i], r[j]) {
      var i', j' := if i > k then i - 1 else i, if j > k then j - 1 else j;
      assert i != k ==> r[i] == sorted[i'];
      assert j != k ==> r[j] == sorted[j'];
      if i != k && j != k { assert Before(sorted[i'], sorted[j']); }
    }
  }

  method InsertTarget(sorted: seq<Target>, x: Target) returns (r: seq<Target>)
    requires Ordered(sorted)
    ensures Ordered(r) && multiset(r) == multiset(sorted) + multiset{x}
  {
    var k := |sorted|;
    while k > 0 && Below(x.connector, sorted[k - 1].connector)
      invariant 0 <= k <= |sorted|
      invariant k < |sorted| ==> Below(x.connector, sorted[k].connector)
    {
      k := k - 1;
    }
    if k < |sorted| { BelowIsTotal(x.connector, sorted[k].connector); }
    InsertKeepsOrder(sorted, k, x);
    r := sorted[..k] + [x] + sorted[k..];
    assert sorted == sorted[..k] + sorted[k..];
  }

  method SortTargets(targets: seq<Target>) returns (sorted: seq<Target>)
    ensures Ordered(sorted) && multiset(sorted) == multiset(targets)
  {
    sorted := [];
    for n := 0 to |targets|
      invariant Ordered(sorted) && multiset(sorted) == multiset(targets[..n])
    {
      sorted := InsertTarget(sorted, targets[n]);
      assert targets[..n + 1] == targets[..n] + [targets[n]];
    }
    assert targets[..|targets|] == targets;
  }

  // ---------------------------------------------------------------------------------------------
  // What the order of the list does not matter for

  /** No two targets of the collection share a connector. */
  predicate DistinctBag(m: multiset<Target>) {
    && (forall t {:trigger m[t]} :: t in m ==> m[t] == 1)
    && (forall t, u {:trigger Differ(t, u)} :: t in m && u in m && t != u ==> Differ(t, u))
  }

  lemma {:induction false} BagOfDistinct(s: seq<Target>)
    requires DistinctTargets(s)
    ensures DistinctBag(multiset(s))
    decreases |s|
  {
    if s == [] {
    } else {
      var n := |s| - 1;
      var p := s[..n];
      assert s == p + [s[n]];
      forall i, j | 0 <= i < j < |p| ensures Differ(p[i], p[j]) { assert Differ(s[i], s[j]); }
      BagOfDistinct(p);
      forall t | t in multiset(p) ensures Differ(t, s[n]) && Differ(s[n], t) && t != s[n] {
        var i :| 0 <= i < n && p[i] == t;
        assert Differ(s[i], s[n]);
      }
      var m := multiset(s);
      forall t, u | t in m && u in m && t != u ensures Differ(t, u) {
        if t != s[n] && u != s[n] { assert t in multiset(p) && u in multiset(p); }
      }
    }
  }

  lemma DistinctOfBag(s: seq<Target>)
    requires DistinctBag(multiset(s))
    ensures DistinctTargets(s)
  {
    forall i, j | 0 <= i < j < |s| ensures Differ(s[i], s[j]) {
      assert s == s[..j] + [s[j]] + s[j + 1..];
      assert s[i] in multiset(s[..j]) by { assert s[..j][i] == s[i]; }
      assert s[i] == s[j] ==> multiset(s)[s[j]] >= 2;
      assert s[i] in multiset(s) && s[j] in multiset(s);
    }
  }

  lemma OrderedDistinctIsStrict(s: seq<Target>)
    requires Ordered(s)
    ensures DistinctTargets(s) ==> StrictlyOrdered(s)
  {
    if DistinctTargets(s) {
      forall i, j | 0 <= i && j == i + 1 < |s| ensures Below(s[i].connector, s[j].connector) {
        assert Differ(s[i], s[j]) && Before(s[i], s[j]);
        BelowIsTotal(s[i].connector, s[j].connector);
      }
    }
  }

  /** The first of an ordered list is the one all others follow, so the collection determines it. */
  lemma {:induction false} OrderIsUnique(s: seq<Target>, u: seq<Target>)
    requires Ordered(s) && Ordered(u) && multiset(s) == multiset(u) && DistinctBag(multiset(s))
    ensures s == u
    decreases |s|
  {
    assert |multiset(s)| == |s| && |multiset(u)| == |u|;
    if s == [] {
    } else {
      SameFirst(s, u);
      assert s == [s[0]] + s[1..] && u == [u[0]] + u[1..];
      assert multiset(s[1..]) == multiset(s) - multiset{s[0]};
      assert multiset(u[1..]) == multiset(u) - multiset{u[0]};
      TailIsOrdered(s);
      TailIsOrdered(u);
      var m := multiset(s[1..]);
      assert forall t :: t in m ==> t in multiset(s) && m[t] <= multiset(s)[t];
      OrderIsUnique(s[1..], u[1..]);
    }
  }

  lemma TailIsOrdered(s: seq<Target>)
    requires s != [] && Ordered(s)
    ensures Ordered(s[1..])
  {
    forall i, j | 0 <= i < j < |s[1..]| ensures Before(s[1..][i], s[1..][j]) { assert Before(s[i + 1], s[j + 1]); }
  }

  lemma SameFirst(s: seq<Target>, u: seq<Target>)
    requires s != [] && u != [] && Ordered(s) && Ordered(u) && multiset(s) == multiset(u) && DistinctBag(multiset(s))
    ensures s[0] == u[0]
  {
    assert s[0] in multiset(u) && u[0] in multiset(s);
    var i :| 0 <= i < |u| && u[i] == s[0];
    var j :| 0 <= j < |s| && s[j] == u[0];
    if i > 0 && j > 0 {
      assert Before(u[0], u[i]) && Before(s[0], s[j]);
      BelowIsTotal(s[0].connector, u[0].connector);
      assert s[0] != u[0] ==> Differ(s[0], u[0]);
    }
  }

  // ---------------------------------------------------------------------------------------------
  // The plan

  predicate SoundParts(account: Id, tunnel: Id, operation: Id, targets: multiset<Target>) {
    && ValidIdentifier(account) && ValidIdentifier(tunnel) && ValidIdentifier(operation)
    && 0 < |targets| <= MAX_TARGETS && (forall t :: t in targets ==> t.Valid()) && DistinctBag(targets)
  }

  /** `digest` is the hash of a plan's other fields, always well formed. A plan is made exactly from sound parts; it
      holds the same targets and is valid. */
  method NewRotationPlan(account: Id, tunnel: Id, operation: Id, targets: seq<Target>,
                         digest: (Id, Id, Id, seq<Target>) -> string)
    returns (plan: Outcome<Plan>)
    requires forall s :: ValidHash(digest(account, tunnel, operation, s))
    ensures plan.Ok? <==> SoundParts(account, tunnel, operation, multiset(targets))
    ensures plan.Ok? ==>
              && plan.value.Valid() && plan.value.account == account && plan.value.tunnel == tunnel
              && plan.value.operation == operation
              && multiset(plan.value.targets) == multiset(targets) && Ordered(plan.value.targets)
              && plan.value.setHash == digest(account, tunnel, operation, plan.value.targets)
  {
    var sorted := SortTargets(targets);
    var ok := CheckTargets(sorted);
    assert |multiset(targets)| == |targets| && |multiset(sorted)| == |sorted|;
    if DistinctTargets(sorted) { BagOfDistinct(sorted); }
    if DistinctBag(multiset(sorted)) { DistinctOfBag(sorted); }
    OrderedDistinctIsStrict(sorted);
    assert (forall t: Target :: t in multiset(sorted) ==> t.Valid()) <==>
           (forall i :: 0 <= i < |sorted| ==> sorted[i].Valid());
    if !ValidIdentifier(account) || !ValidIdentifier(tunnel) || !ValidIdentifier(operation) || |sorted| == 0
      || |sorted| > MAX_TARGETS || !ok {
      return Err(InvalidInput);
    }
    plan := Ok(Plan(account, tunnel, operation, digest(account, tunnel, operation, sorted), sorted, true));
  }

  /** The loop of the field check over sorted targets: each valid, each above the one before, none seen before. */
  method CheckTargets(targets: seq<Target>) returns (ok: bool)
    requires Ordered(targets)
    ensures ok <==> (forall i :: 0 <= i < |targets| ==> targets[i].Valid()) && DistinctTargets(targets)
  {
    var seen: set<Id> := {};
    for n := 0 to |targets|
      invariant forall i :: 0 <= i < n ==> targets[i].Valid() && targets[i].connector in seen
      invariant forall k :: k in seen ==> exists i :: 0 <= i < n && targets[i].connector == k
      invariant forall i, j :: 0 <= i < j < n ==> Differ(targets[i], targets[j])
    {
      if !targets[n].Valid() {
        return false;
      }
      if n > 0 && !Below(targets[n - 1].connector, targets[n].connector) {
        assert Before(targets[n - 1], targets[n]);
        BelowIsTotal(targets[n - 1].connector, targets[n].connector);
        assert !Differ(targets[n - 1], targets[n]);
        return false;
      }
      if targets[n].connector in seen {
        ghost var i :| 0 <= i < n && targets[i].connector == targets[n].connector;
        assert !Differ(targets[i], targets[n]);
        return false;
      }
      seen := seen + {targets[n].connector};
    }
    ok := true;
  }

  /** A plan, and with it its target set hash, does not depend on the order in which its targets are listed. */
  lemma PlanIgnoresListOrder(p: Plan, q: Plan, digest: (Id, Id, Id, seq<Target>) -> string)
    requires p.Valid() && q.sound && Ordered(p.targets) && Ordered(q.targets)
             && multiset(p.targets) == multiset(q.targets)
    requires p.account == q.account && p.tunnel == q.tunnel && p.operation == q.operation
    requires p.setHash == digest(p.account, p.tunnel, p.operation, p.targets)
    requires q.setHash == digest(q.account, q.tunnel, q.operation, q.targets)
    ensures p == q
  {
    BagOfDistinct(p.targets);
    OrderIsUnique(p.targets, q.targets);
  }
}
