/**
 Choosing one price per model from the models.dev catalogue, where several providers may list the
 same model: the cheapest non-zero input price, up to a tolerance that is not transitive.
 */
module ModelsDev {

  datatype Option<T> = None | Some(value: T)

  /** A float64: NaN and the infinities are never valid costs. */
  datatype Float = NotFinite | Finite(r: real)

  datatype Cost = Cost(input: Option<Float>, output: Option<Float>, cacheRead: Option<Float>)

  datatype Candidate = Candidate(provider: string, input: real, output: Option<real>, cacheRead: Option<real>)

  /** Provider name to model name to cost. */
  type Catalogue = map<string, map<string, Cost>>

  const EPSILON := 0.000000001

  predicate NearlyEqual(a: real, b: real) {
    if a > b then a - b < EPSILON else b - a < EPSILON
  }

  predicate ValidCost(v: Float) {
    v.Finite? && v.r >= 0.0
  }

  /** `buildModelsDevCandidate`. */
  function Build(provider: string, cost: Cost): (c: Option<Candidate>)
    ensures c.Some? <==>
              && cost.input.Some? && cost.input.value.Finite? && cost.input.value.r >= 0.0
              && (cost.output.Some? ==>
                    && cost.output.value.Finite? && cost.output.value.r >= 0.0
                    && (cost.input.value.r > 0.0 || cost.output.value.r == 0.0))
    ensures c.Some? ==> c.value.provider == provider && Finite(c.value.input) == cost.input.value
    ensures c.Some? ==> (if c.value.output.Some? then Some(Finite(c.value.output.value)) else None) == cost.output
    ensures c.Some? && c.value.cacheRead.Some? ==>
              c.value.cacheRead.value >= 0.0 && cost.cacheRead == Some(Finite(c.value.cacheRead.value))
    ensures c.Some? && c.value.cacheRead.None? ==>
              cost.cacheRead.None? || cost.cacheRead.value.NotFinite? || cost.cacheRead.value.r < 0.0
  {
    if cost.input.None? || !ValidCost(cost.input.value) then None
    else if cost.output.Some? && !ValidCost(cost.output.value) then None
    else
      var input := cost.input.value.r;
      var output := if cost.output.Some? then Some(cost.output.value.r) else None;
      if input == 0.0 && output.Some? && output.value > 0.0 then None
      else
        Some(Candidate(provider, input, output,
                       if cost.cacheRead.Some? && ValidCost(cost.cacheRead.value) then Some(cost.cacheRead.value.r)
                           else None))
  }

  // ---------------------------------------------------------------- string order

  /** Go's `<` on strings: lexicographic. */
  predicate Less(a: string, b: string) {
    if b == "" then false
    else if a == "" then true
    else a[0] < b[0] || (a[0] == b[0] && Less(a[1..], b[1..]))
  }

  /** One string is less than another if it is a proper beginning of it, or smaller where they first differ. */
  lemma {:induction false} LessIff(a: string, b: string)
    ensures Less(a, b) <==> exists i | 0 <= i <= |a| && i < |b| :: SmallerAt(a, b, i)
  {
    if a != "" && b != "" {
      LessIff(a[1..], b[1..]);
      if a[0] == b[0] {
        assert forall i | 1 <= i <= |a| && i < |b| :: SmallerAt(a, b, i) <==> SmallerAt(a[1..], b[1..], i - 1) by {
          forall i | 1 <= i <= |a| && i < |b| ensures SmallerAt(a, b, i) <==> SmallerAt(a[1..], b[1..], i - 1) {
            assert a[..i] == [a[0]] + a[1..][..i - 1] && b[..i] == [b[0]] + b[1..][..i - 1];
          }
        }
        assert !SmallerAt(a, b, 0);
        if i :| 0 <= i <= |a| - 1 && i < |b| - 1 && SmallerAt(a[1..], b[1..], i) {
          assert SmallerAt(a, b, i + 1);
        }
      } else {
        assert forall i | 1 <= i <= |a| && i < |b| :: !SmallerAt(a, b, i) by {
          forall i | 1 <= i <= |a| && i < |b| ensures !SmallerAt(a, b, i) {
            assert a[..i][0] != b[..i][0];
          }
        }
        assert SmallerAt(a, b, 0) <==> a[0] < b[0];
      }
    } else if b != "" {
      assert SmallerAt(a, b, 0);
    }
  }

  predicate SmallerAt(a: string, b: string, i: int)
    requires 0 <= i <= |a| && i < |b|
  {
    a[..i] == b[..i] && (i < |a| ==> a[i] < b[i])
  }

  lemma {:induction false} LessTrichotomy(a: string, b: string)
    ensures !Less(a, a)
    ensures !(Less(a, b) && Less(b, a))
    ensures a == b || Less(a, b) || Less(b, a)
  {
    if a != "" {
      LessTrichotomy(a[1..], a[1..]);
      if b != "" {
        LessTrichotomy(a[1..], b[1..]);
        if a[0] == b[0] && a[1..] == b[1..] {
          assert a == [a[0]] + a[1..] && b == [b[0]] + b[1..];
        }
      }
    }
  }

  lemma {:induction false} LessTransitive(a: string, b: string, c: string)
    requires Less(a, b) && Less(b, c)
    ensures Less(a, c)
  {
    if a != "" && a[0] == b[0] == c[0] {
      LessTransitive(a[1..], b[1..], c[1..]);
    }
  }

  ghost predicate Ascending(xs: seq<string>) {
    forall i, j :: 0 <= i < j < |xs| ==> Less(xs[i], xs[j])
  }

  method InsertSorted(x: string, xs: seq<string>) returns (ys: seq<string>)
    requires Ascending(xs) && x !in xs
    ensures Ascending(ys) && forall y :: y in ys <==> y == x || y in xs
  {
    var i := 0;
    while i < |xs| && Less(xs[i], x)
      invariant 0 <= i <= |xs|
      invariant forall j :: 0 <= j < i ==> Less(xs[j], x)
    {
      i := i + 1;
    }
    ys := xs[..i] + [x] + xs[i..];
    forall j | i <= j < |xs|
      ensures Less(x, xs[j])
    {
      LessTrichotomy(x, xs[i]);
      if i < j {
        LessTransitive(x, xs[i], xs[j]);
      }
    }
  }

  /** The keys of a map collected and sorted. */
  method SortedKeys(keys: set<string>) returns (xs: seq<string>)
    ensures Ascending(xs) && forall x :: x in xs <==> x in keys
  {
    xs := [];
    var todo := keys;
    while todo != {}
      invariant Ascending(xs) && todo <= keys
      invariant forall x :: x in xs <==> x in keys && x !in todo
      decreases todo
    {
      var x :| x in todo;
      xs := InsertSorted(x, xs);
      todo := todo - {x};
    }
  }

  // ---------------------------------------------------------------- selection

  /** `shouldReplaceModelsDevCandidate`. */
  predicate ShouldReplace(current: Candidate, next: Candidate) {
    var currentNonZero, nextNonZero := current.input > 0.0, next.input > 0.0;
    if currentNonZero != nextNonZero then nextNonZero
    else if nextNonZero && !NearlyEqual(next.input, current.input) then next.input < current.input
    else Less(next.provider, current.provider)
  }

  /** What provider `p` offers for model `m`. */
  function Offer(data: Catalogue, p: string, m: string): Option<Candidate> {
    if p in data && m in data[p] then Build(p, data[p][m]) else None
  }

  function Chosen(current: Option<Candidate>, offer: Option<Candidate>): Option<Candidate> {
    if offer.None? then current
    else if current.None? || ShouldReplace(current.value, offer.value) then offer
    else current
  }

  /** The candidate for `m` after the given providers. */
  function Select(data: Catalogue, providers: seq<string>, m: string): Option<Candidate> {
    if providers == [] then None
    else Chosen(Select(data, providers[..|providers| - 1], m), Offer(data, providers[|providers| - 1], m))
  }

  function Get(selected: map<string, Candidate>, m: string): Option<Candidate> {
    if m in selected then Some(selected[m]) else None
  }

  /** One provider's round of the selection loop. */
  method VisitProvider(data: Catalogue, provider: string, selected: map<string, Candidate>)
    returns (updated: map<string, Candidate>)
    requires provider in data
    ensures forall m :: Get(updated, m) == Chosen(Get(selected, m), Offer(data, provider, m))
  {
    var models := SortedKeys(data[provider].Keys);
    updated := selected;
    for j := 0 to |models|
      invariant forall m :: Get(updated, m) ==
                  if m in models[..j] then Chosen(Get(selected, m), Offer(data, provider, m)) else Get(selected, m)
    {
      var m := models[j];
      NotSeen(models, j);
      assert models[..j + 1] == models[..j] + [m];
      assert Get(updated, m) == Get(selected, m);
      var candidate := Build(provider, data[provider][m]);
      if candidate.Some? && (m !in updated || ShouldReplace(updated[m], candidate.value)) {
        updated := updated[m := candidate.value];
      }
    }
    assert models[..|models|] == models;
  }

  /** The selection loop of `convertModelsDevToRatioData`. */
  method SelectAll(data: Catalogue) returns (selected: map<string, Candidate>, providers: seq<string>)
    ensures Ascending(providers) && forall p :: p in providers <==> p in data
    ensures forall m :: Get(selected, m) == Select(data, providers, m)
  {
    providers := SortedKeys(data.Keys);
    selected := map[];
    for i := 0 to |providers|
      invariant forall m :: Get(selected, m) == Select(data, providers[..i], m)
    {
      selected := VisitProvider(data, providers[i], selected);
      assert providers[..i + 1][..i] == providers[..i];
    }
    assert providers[..|providers|] == providers;
  }

  lemma NotSeen(xs: seq<string>, j: nat)
    requires Ascending(xs) && j < |xs|
    ensures xs[j] !in xs[..j]
  {
    if i :| 0 <= i < j && xs[i] == xs[j] {
      LessTrichotomy(xs[i], xs[j]);
    }
  }

  /** A valid candidate with a non-zero price. */
  predicate Priced(c: Option<Candidate>) {
    c.Some? && c.value.input > 0.0
  }

  /** Every invariant of the fold over alphabetically visited providers. */
  lemma {:induction false} SelectInvariant(data: Catalogue, providers: seq<string>, m: string)
    requires Ascending(providers)
    ensures var s := Select(data, providers, m);
            && (s.Some? <==> exists i :: 0 <= i < |providers| && Offer(data, providers[i], m).Some?)
            && (s.Some? ==> exists i ::
                  0 <= i < |providers| && Offer(data, providers[i], m) == s && providers[i] == s.value.provider)
            && forall i :: 0 <= i < |providers| && Priced(Offer(data, providers[i], m)) ==>
                 Priced(s) && Offer(data, providers[i], m).value.input > s.value.input - EPSILON
  {
    if providers != [] {
      var front, p := providers[..|providers| - 1], providers[|providers| - 1];
      SelectInvariant(data, front, m);
      var prev, offer, s := Select(data, front, m), Offer(data, p, m), Select(data, providers, m);
      assert forall i :: 0 <= i < |front| ==> front[i] == providers[i];
      if prev.Some? {
        var i :| 0 <= i < |front| && Offer(data, front[i], m) == prev && front[i] == prev.value.provider;
        LessTrichotomy(prev.value.provider, p);
        assert Less(providers[i], p);
        assert Offer(data, providers[i], m) == prev;
      }
      assert offer.Some? ==> offer.value.provider == p && Offer(data, providers[|providers| - 1], m) == offer;
    }
  }

  /** The fold selects a candidate exactly if a valid one exists, a non-zero one exactly if a valid
      non-zero one exists, and no valid non-zero candidate is cheaper by the tolerance or more. */
  lemma SelectsCheapest(data: Catalogue, providers: seq<string>, m: string)
    requires Ascending(providers) && forall p :: p in providers <==> p in data
    ensures var s := Select(data, providers, m);
            && (s.Some? <==> exists p :: p in data && Offer(data, p, m).Some?)
            && (Priced(s) <==> exists p :: p in data && Priced(Offer(data, p, m)))
            && (s.Some? ==> s.value.provider in data && Offer(data, s.value.provider, m) == s)
            && forall p :: p in data && Priced(Offer(data, p, m)) ==>
                 s.Some? && Offer(data, p, m).value.input > s.value.input - 0.000000001
  {
    SelectInvariant(data, providers, m);
    forall p | p in data
      ensures exists i :: 0 <= i < |providers| && providers[i] == p
    {
      assert p in providers;
    }
  }

  /** Among offers that are all free, the alphabetically first is selected. */
  lemma {:induction false} FirstOfFree(data: Catalogue, providers: seq<string>, m: string, i: nat)
    requires Ascending(providers) && i < |providers| && Offer(data, providers[i], m).Some?
    requires forall j :: 0 <= j < |providers| ==> !Priced(Offer(data, providers[j], m))
    requires forall j :: 0 <= j < i ==> Offer(data, providers[j], m).None?
    ensures Select(data, providers, m) == Offer(data, providers[i], m)
  {
    var front := providers[..|providers| - 1];
    SelectInvariant(data, front, m);
    assert forall j :: 0 <= j < |front| ==> front[j] == providers[j];
    if i < |front| {
      FirstOfFree(data, front, m, i);
      LessTrichotomy(providers[i], providers[|front|]);
    }
  }

  /** Visiting providers in alphabetical order is what makes the bound hold: against that order,
      near-ties replace each other and the price drifts past the tolerance. */
  lemma UnsortedDrifts()
    ensures var a := Candidate("c", 1.0, None, None);
            var b := Candidate("b", 1.0000000009, None, None);
            var c := Candidate("a", 1.0000000018, None, None);
            Chosen(Chosen(Some(a), Some(b)), Some(c)) == Some(c) && a.input <= c.input - EPSILON
  {
    assert Less("b", "c") && Less("a", "b");
  }
}
