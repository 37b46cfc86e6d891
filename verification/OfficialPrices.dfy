/**
  Official prices: which provider's price is taken for a model, and how the official values are
  merged into the local ones.  Prices are real numbers; providers are named by their place in
  the sorted order in which they are visited.
 */
module OfficialPrices {
  import opened Options

  const EPSILON: real := 0.000000001

  predicate NearlyEqual(a: real, b: real) {
    if a > b then a - b < EPSILON else b - a < EPSILON
  }

  // ---------------------------------------------------------------- candidates

  /** A number as the feed gives it. */
  datatype Number = NotFinite | Finite(value: real)
  datatype Cost = Cost(input: Option<Number>, output: Option<Number>, cacheRead: Option<Number>, cacheWrite: Option<Number>)
  datatype Candidate = Candidate(provider: nat, input: real, output: Option<real>, cacheRead: Option<real>, cacheWrite: Option<real>)

  predicate ValidCost(n: Number) {
    n.Finite? && n.value >= 0.0
  }

  function IfValid(n: Option<Number>): Option<real> {
    if n.Some? && ValidCost(n.value) then Some(n.value.value) else None
  }

  /** A price without a valid input cost, with an invalid output cost, or free to ask but not to answer, is no candidate. */
  function Build(provider: nat, c: Cost): (r: Option<Candidate>)
    ensures r.Some? ==> r.value.provider == provider && r.value.input >= 0.0
    ensures r.Some? && r.value.input == 0.0 && r.value.output.Some? ==> r.value.output.value == 0.0
  {
    if IfValid(c.input).None? || (c.output.Some? && !ValidCost(c.output.value)) then None
    else
      var input, output := IfValid(c.input).value, IfValid(c.output);
      if input == 0.0 && output.Some? && output.value > 0.0 then None
      else Some(Candidate(provider, input, output, IfValid(c.cacheRead), IfValid(c.cacheWrite)))
  }

  /** The completion ratio a price is stored as: output cost per input cost. */
  predicate IsRatio(r: real, input: real, output: real) {
    r >= 0.0 && r * input == output
  }

  /**
    A cost is a candidate exactly when its input is valid and its output, if given, is valid and a
    multiple of the input; the candidate holds the feed's own numbers, dropping invalid cache costs.
   */
  lemma BuildIff(provider: nat, c: Cost)
    ensures var b := Build(provider, c);
            && (b.Some? <==> && c.input.Some? && ValidCost(c.input.value)
                             && (c.output.Some? ==> ValidCost(c.output.value)
                                                    && exists r :: IsRatio(r, c.input.value.value, c.output.value.value)))
            && (b.Some? ==> && Some(Finite(b.value.input)) == c.input
                            && (b.value.output.Some? <==> c.output.Some?)
                            && (b.value.output.Some? ==> c.output == Some(Finite(b.value.output.value))))
  {
    if IfValid(c.input).Some? && IfValid(c.output).Some? {
      var input, output := c.input.value.value, c.output.value.value;
      if input > 0.0 {
        assert IsRatio(output / input, input, output);
      } else if output == 0.0 {
        assert IsRatio(0.0, input, output);
      } else {
        forall r ensures !IsRatio(r, input, output) {
        }
      }
    }
  }

  predicate Replaces(next: Candidate, current: Candidate) {
    if (current.input > 0.0) != (next.input > 0.0) then next.input > 0.0
    else if next.input > 0.0 && !NearlyEqual(next.input, current.input) then next.input < current.input
    else next.provider < current.provider
  }

  /** The candidate kept after seeing all of a list in order. */
  function Pick(offers: seq<Candidate>): Option<Candidate> {
    if offers == [] then None
    else
      var kept, next := Pick(offers[..|offers| - 1]), offers[|offers| - 1];
      if kept.None? || Replaces(next, kept.value) then Some(next) else kept
  }

  ghost predicate Ascending(offers: seq<Candidate>) {
    && (forall i, j | 0 <= i < j < |offers| :: offers[i].provider < offers[j].provider)
    && (forall i | 0 <= i < |offers| :: offers[i].input >= 0.0)
  }

  /** An offer within the tolerance of every non-zero one, and free only when all are. */
  ghost predicate NearCheapest(p: Candidate, offers: seq<Candidate>) {
    && p in offers
    && (forall i | 0 <= i < |offers| && offers[i].input > 0.0 :: 0.0 < p.input < offers[i].input + EPSILON)
  }

  /**
    Near-equality is not transitive, yet visiting providers in ascending order never lets the pick
    drift: it stays within the tolerance of the cheapest non-zero offer.
   */
  lemma {:induction false} PickNearCheapest(offers: seq<Candidate>)
    requires offers != [] && Ascending(offers)
    ensures Pick(offers).Some? && NearCheapest(Pick(offers).value, offers)
    decreases |offers|
  {
    var n := |offers| - 1;
    var front, next := offers[..n], offers[n];
    if n > 0 {
      PickNearCheapest(front);
      var kept, p := Pick(front).value, Pick(offers).value;
      assert kept.provider < next.provider by {
        var i :| 0 <= i < n && front[i] == kept;
        assert offers[i] == kept;
      }
      forall i | 0 <= i < |offers| && offers[i].input > 0.0 ensures 0.0 < p.input < offers[i].input + EPSILON {
        if i < n {
          assert front[i] == offers[i];
        }
      }
    }
  }

  /** In any other order the tie-break can carry the pick away from the cheapest, step by step. */
  lemma DriftsOutOfOrder(x: real, d: real)
    requires x > 0.0 && 0.5 * EPSILON <= d < EPSILON
    ensures var offers := [Candidate(2, x, None, None, None), Candidate(1, x + d, None, None, None), Candidate(0, x + 2.0 * d, None, None, None)];
            Pick(offers) == Some(offers[2]) && !NearCheapest(offers[2], offers)
  {
    var a, b, c := Candidate(2, x, None, None, None), Candidate(1, x + d, None, None, None), Candidate(0, x + 2.0 * d, None, None, None);
    assert [a, b, c][..2] == [a, b] && [a, b][..1] == [a] && [a][..0] == [];
    assert Pick([a]) == Some(a);
    assert Pick([a, b]) == Some(b);
  }

  // ---------------------------------------------------------------- selection over all providers

  datatype Name = Name(text: string)
  datatype Listing = Listing(name: Name, importable: bool, cost: Cost)
  datatype Provider = Provider(official: bool, listings: seq<Listing>)

  /** The candidates offered for one model, in visiting order: providers, and listings up to `n` of the last one. */
  function Offers(providers: seq<Provider>, m: Name): seq<Candidate> {
    if providers == [] then []
    else
      var k := |providers| - 1;
      Offers(providers[..k], m) + if providers[k].official then OffersOf(k, providers[k].listings, m) else []
  }

  function OffersOf(provider: nat, listings: seq<Listing>, m: Name): seq<Candidate> {
    if listings == [] then []
    else
      var front, l := OffersOf(provider, listings[..|listings| - 1], m), listings[|listings| - 1];
      var c := Build(provider, l.cost);
      if l.name == m && l.importable && c.Some? then front + [c.value] else front
  }

  /** Names are the keys of a provider's models, so each occurs once. */
  ghost predicate DistinctNames(listings: seq<Listing>) {
    forall i, j | 0 <= i < j < |listings| :: listings[i].name != listings[j].name
  }

  /** The map holds each model's pick of the offers seen so far. */
  ghost predicate Selected(chosen: map<Name, Candidate>, seen: seq<Provider>, k: nat, listings: seq<Listing>) {
    forall m: Name :: Holds(chosen, m, Offers(seen, m) + OffersOf(k, listings, m))
  }

  predicate Holds(chosen: map<Name, Candidate>, m: Name, offers: seq<Candidate>) {
    Pick(offers) == if m in chosen then Some(chosen[m]) else None
  }

  lemma PickMore(offers: seq<Candidate>, next: Candidate)
    ensures Pick(offers + [next]) == if Pick(offers).None? || Replaces(next, Pick(offers).value) then Some(next) else Pick(offers)
  {
    assert (offers + [next])[..|offers|] == offers;
  }

  lemma OffersOfMore(k: nat, listings: seq<Listing>, l: Listing, m: Name)
    ensures var c := Build(k, l.cost);
            OffersOf(k, listings + [l], m)
            == if l.name == m && l.importable && c.Some? then OffersOf(k, listings, m) + [c.value] else OffersOf(k, listings, m)
  {
    assert (listings + [l])[..|listings|] == listings;
  }

  /** What one more listing does to the selection. */
  function Considered(chosen: map<Name, Candidate>, k: nat, l: Listing): map<Name, Candidate> {
    var c := Build(k, l.cost);
    if l.importable && c.Some? && (l.name !in chosen || Replaces(c.value, chosen[l.name])) then chosen[l.name := c.value] else chosen
  }

  lemma ConsideredSelects(chosen: map<Name, Candidate>, seen: seq<Provider>, k: nat, listings: seq<Listing>, l: Listing)
    requires Selected(chosen, seen, k, listings)
    ensures Selected(Considered(chosen, k, l), seen, k, listings + [l])
  {
    hide Holds, Considered, Offers, OffersOf, Build;
    forall m: Name ensures Holds(Considered(chosen, k, l), m, Offers(seen, m) + OffersOf(k, listings + [l], m)) {
      assert Holds(chosen, m, Offers(seen, m) + OffersOf(k, listings, m));
      ConsideredHolds(chosen, Offers(seen, m), k, listings, l, m);
    }
  }

  /** One listing changes the pick of the model it names and of no other. */
  lemma ConsideredHolds(chosen: map<Name, Candidate>, before: seq<Candidate>, k: nat, listings: seq<Listing>, l: Listing, m: Name)
    requires Holds(chosen, m, before + OffersOf(k, listings, m))
    ensures Holds(Considered(chosen, k, l), m, before + OffersOf(k, listings + [l], m))
  {
    hide Pick, OffersOf, Replaces, Build;
    var offers, c := before + OffersOf(k, listings, m), Build(k, l.cost);
    OffersOfMore(k, listings, l, m);
    if l.name == m && l.importable && c.Some? {
      PickMore(offers, c.value);
      assert offers + [c.value] == before + OffersOf(k, listings + [l], m);
    }
  }

  lemma ProviderSeen(chosen: map<Name, Candidate>, seen: seq<Provider>, p: Provider)
    requires Selected(chosen, seen, |seen|, if p.official then p.listings else [])
    ensures Selected(chosen, seen + [p], |seen| + 1, [])
  {
    forall m: Name ensures Holds(chosen, m, Offers(seen + [p], m) + OffersOf(|seen| + 1, [], m)) {
      assert (seen + [p])[..|seen|] == seen;
      assert Holds(chosen, m, Offers(seen, m) + OffersOf(|seen|, if p.official then p.listings else [], m));
      assert Offers(seen + [p], m) + [] == Offers(seen, m) + OffersOf(|seen|, if p.official then p.listings else [], m);
    }
  }

  lemma {:induction false} OneOffer(k: nat, listings: seq<Listing>, m: Name)
    requires DistinctNames(listings)
    ensures |OffersOf(k, listings, m)| <= 1
    ensures OffersOf(k, listings, m) != [] ==> exists i | 0 <= i < |listings| :: listings[i].name == m
    ensures forall i | 0 <= i < |OffersOf(k, listings, m)| :: OffersOf(k, listings, m)[i].provider == k && OffersOf(k, listings, m)[i].input >= 0.0
    decreases |listings|
  {
    if listings != [] {
      OneOffer(k, listings[..|listings| - 1], m);
    }
  }

  lemma {:induction false} OffersAscend(providers: seq<Provider>, m: Name)
    requires forall k | 0 <= k < |providers| :: DistinctNames(providers[k].listings)
    ensures Ascending(Offers(providers, m))
    ensures forall i | 0 <= i < |Offers(providers, m)| :: Offers(providers, m)[i].provider < |providers|
    decreases |providers|
  {
    if providers != [] {
      var k := |providers| - 1;
      OffersAscend(providers[..k], m);
      OneOffer(k, providers[k].listings, m);
    }
  }

  method SelectPrices(providers: seq<Provider>) returns (chosen: map<Name, Candidate>)
    requires forall k | 0 <= k < |providers| :: DistinctNames(providers[k].listings)
    ensures forall m: Name :: m in chosen <==> Offers(providers, m) != []
    ensures forall m | m in chosen :: NearCheapest(chosen[m], Offers(providers, m))
  {
    chosen := map[];
    assert Selected(chosen, providers[..0], 0, []);
    for k := 0 to |providers|
      invariant Selected(chosen, providers[..k], k, [])
    {
      hide Selected;
      var p := providers[k];
      if p.official {
        for j := 0 to |p.listings|
          invariant Selected(chosen, providers[..k], k, p.listings[..j])
        {
          var l := p.listings[j];
          ConsideredSelects(chosen, providers[..k], k, p.listings[..j], l);
          assert p.listings[..j + 1] == p.listings[..j] + [l];
          var c := Build(k, l.cost);
          if l.importable && c.Some? && (l.name !in chosen || Replaces(c.value, chosen[l.name])) {
            chosen := chosen[l.name := c.value];
          }
        }
        assert p.listings[..|p.listings|] == p.listings;
      }
      ProviderSeen(chosen, providers[..k], p);
      assert providers[..k + 1] == providers[..k] + [p];
    }
    assert providers[..|providers|] == providers;
    SelectedAnswers(chosen, providers);
  }

  lemma SelectedAnswers(chosen: map<Name, Candidate>, providers: seq<Provider>)
    requires forall k | 0 <= k < |providers| :: DistinctNames(providers[k].listings)
    requires Selected(chosen, providers, |providers|, [])
    ensures forall m: Name :: m in chosen <==> Offers(providers, m) != []
    ensures forall m | m in chosen :: NearCheapest(chosen[m], Offers(providers, m))
  {
    forall m: Name
      ensures m in chosen <==> Offers(providers, m) != []
      ensures m in chosen ==> NearCheapest(chosen[m], Offers(providers, m))
    {
      var offers := Offers(providers, m);
      assert offers + OffersOf(|providers|, [], m) == offers;
      assert Holds(chosen, m, offers);
      OffersAscend(providers, m);
      if offers != [] {
        PickNearCheapest(offers);
      }
    }
  }

  // ---------------------------------------------------------------- merging official values

  /** The values the feed gives for official models; those it gives no valid number for are left out. */
  function OfficialValues(raw: map<Name, Number>, official: set<Name>, round: real -> real): map<Name, real> {
    map m | m in raw && m in official && ValidCost(raw[m]) :: round(raw[m].value)
  }

  /** Custom models as they are, official ones as the feed has them. */
  function Merged(current: map<Name, real>, values: map<Name, real>, official: set<Name>): map<Name, real> {
    (current - official) + values
  }

  /** An official model the feed no longer has a value for. */
  predicate Stale(m: Name, values: map<Name, real>, official: set<Name>) {
    m in official && m !in values
  }

  predicate Differs(m: Name, current: map<Name, real>, values: map<Name, real>)
    requires m in values
  {
    m !in current || !NearlyEqual(current[m], values[m])
  }

  function StaleIn(models: set<Name>, values: map<Name, real>, official: set<Name>): set<Name> {
    set m | m in models && Stale(m, values, official)
  }

  function DifferingIn(models: set<Name>, current: map<Name, real>, values: map<Name, real>): set<Name> {
    set m | m in models && m in values && Differs(m, current, values)
  }

  function KeptIn(models: set<Name>, current: map<Name, real>, values: map<Name, real>, official: set<Name>): map<Name, real> {
    map m | m in models && m in current && !Stale(m, values, official) :: current[m]
  }

  function PutIn(models: set<Name>, kept: map<Name, real>, values: map<Name, real>): map<Name, real> {
    kept + map m | m in models && m in values :: values[m]
  }

  /** How many official models lose their value, plus how many values are new or differ. */
  function ChangeCount(current: map<Name, real>, values: map<Name, real>, official: set<Name>): nat {
    |StaleIn(current.Keys, values, official)| + |DifferingIn(values.Keys, current, values)|
  }

  lemma DropStep(done: set<Name>, m: Name, current: map<Name, real>, values: map<Name, real>, official: set<Name>)
    requires m in current && m !in done
    ensures |StaleIn(done + {m}, values, official)| == |StaleIn(done, values, official)| + if Stale(m, values, official) then 1 else 0
    ensures KeptIn(done + {m}, current, values, official)
         == if Stale(m, values, official) then KeptIn(done, current, values, official) else KeptIn(done, current, values, official)[m := current[m]]
  {
    hide Stale;
    assert StaleIn(done + {m}, values, official)
        == StaleIn(done, values, official) + if Stale(m, values, official) then {m} else {};
  }

  lemma PutStep(done: set<Name>, m: Name, values: map<Name, real>, kept: map<Name, real>)
    requires m in values
    ensures PutIn(done + {m}, kept, values) == PutIn(done, kept, values)[m := values[m]]
  {
  }

  lemma ValueStep(done: set<Name>, m: Name, current: map<Name, real>, values: map<Name, real>, kept: map<Name, real>)
    requires m in values && m !in done
    ensures |DifferingIn(done + {m}, current, values)| == |DifferingIn(done, current, values)| + if Differs(m, current, values) then 1 else 0
    ensures PutIn(done + {m}, kept, values) == PutIn(done, kept, values)[m := values[m]]
  {
    PutStep(done, m, values, kept);
    hide Differs, PutIn;
    assert DifferingIn(done + {m}, current, values)
        == DifferingIn(done, current, values) + if Differs(m, current, values) then {m} else {};
  }

  lemma NothingPut(current: map<Name, real>, values: map<Name, real>, kept: map<Name, real>)
    ensures PutIn({}, kept, values) == kept && DifferingIn({}, current, values) == {}
  {
  }

  lemma MergedParts(current: map<Name, real>, values: map<Name, real>, official: set<Name>)
    ensures PutIn(values.Keys, KeptIn(current.Keys, current, values, official), values) == Merged(current, values, official)
  {
  }

  method Collect(raw: map<Name, Number>, official: set<Name>, round: real -> real) returns (values: map<Name, real>)
    ensures values == OfficialValues(raw, official, round)
  {
    values := map[];
    var todo := raw.Keys;
    while todo != {}
      invariant todo <= raw.Keys
      invariant values == map m | m in raw.Keys - todo && m in official && ValidCost(raw[m]) :: round(raw[m].value)
      decreases |todo|
    {
      var m :| m in todo;
      if m in official && ValidCost(raw[m]) {
        values := values[m := round(raw[m].value)];
      }
      todo := todo - {m};
    }
  }

  /** Keeps everything but official models without a value, which it counts. */
  method DropStale(current: map<Name, real>, values: map<Name, real>, official: set<Name>)
    returns (kept: map<Name, real>, dropped: nat)
    ensures kept == KeptIn(current.Keys, current, values, official)
    ensures dropped == |StaleIn(current.Keys, values, official)|
  {
    kept, dropped := map[], 0;
    ghost var done: set<Name> := {};
    var todo := current.Keys;
    hide StaleIn, KeptIn;
    while todo != {}
      invariant todo + done == current.Keys && todo !! done
      invariant dropped == |StaleIn(done, values, official)| && kept == KeptIn(done, current, values, official)
      decreases |todo|
    {
      var m :| m in todo;
      DropStep(done, m, current, values, official);
      if m in official && m !in values {
        dropped := dropped + 1;
      } else {
        kept := kept[m := current[m]];
      }
      todo, done := todo - {m}, done + {m};
    }
    assert done == current.Keys;
  }

  /** Writes the official values over what was kept, counting those that are new or differ. */
  method PutValues(current: map<Name, real>, values: map<Name, real>, kept: map<Name, real>)
    returns (merged: map<Name, real>, differing: nat)
    ensures merged == PutIn(values.Keys, kept, values) && differing == |DifferingIn(values.Keys, current, values)|
  {
    hide DifferingIn, PutIn, Differs;
    merged, differing := kept, 0;
    ghost var done: set<Name> := {};
    var todo := values.Keys;
    NothingPut(current, values, kept);
    while todo != {}
      invariant todo + done == values.Keys && todo !! done
      invariant differing == |DifferingIn(done, current, values)| && merged == PutIn(done, kept, values)
      decreases |todo|
    {
      var m :| m in todo;
      ValueStep(done, m, current, values, kept);
      if Differs(m, current, values) {
        differing := differing + 1;
      }
      merged := merged[m := values[m]];
      todo, done := todo - {m}, done + {m};
    }
    assert done == values.Keys;
  }

  method ReplaceOfficial(current: map<Name, real>, raw: map<Name, Number>, official: set<Name>, round: real -> real)
    returns (merged: map<Name, real>, changed: nat)
    ensures var values := OfficialValues(raw, official, round);
            merged == Merged(current, values, official) && changed == ChangeCount(current, values, official)
  {
    hide StaleIn, KeptIn, DifferingIn, PutIn, OfficialValues, Merged;
    var values := Collect(raw, official, round);
    var kept, dropped := DropStale(current, values, official);
    MergedParts(current, values, official);
    merged, changed := PutValues(current, values, kept);
    changed := changed + dropped;
  }

  /** Custom models keep their values, official ones have exactly those of the feed, and nothing else is left. */
  lemma MergeExact(current: map<Name, real>, values: map<Name, real>, official: set<Name>, m: Name)
    requires values.Keys <= official
    ensures var merged := Merged(current, values, official);
            if m in official then (m in merged <==> m in values) && (m in values ==> merged[m] == values[m])
            else (m in merged <==> m in current) && (m in current ==> merged[m] == current[m])
  {
  }

  /** Merging again changes nothing and reports no change. */
  lemma MergeRepeats(current: map<Name, real>, values: map<Name, real>, official: set<Name>)
    requires values.Keys <= official
    ensures var merged := Merged(current, values, official);
            Merged(merged, values, official) == merged && ChangeCount(merged, values, official) == 0
  {
    var merged := Merged(current, values, official);
    assert Merged(merged, values, official) == merged;
    assert StaleIn(merged.Keys, values, official) == {} && DifferingIn(values.Keys, merged, values) == {};
  }

  /** No change is reported exactly when the merge keeps the models and moves no value by the tolerance or more. */
  lemma NoChangeIff(current: map<Name, real>, values: map<Name, real>, official: set<Name>)
    requires values.Keys <= official
    ensures var merged := Merged(current, values, official);
            ChangeCount(current, values, official) == 0
            <==> merged.Keys == current.Keys && forall m | m in current :: m in merged && NearlyEqual(current[m], merged[m])
  {
    var merged := Merged(current, values, official);
    var stale, differing := StaleIn(current.Keys, values, official), DifferingIn(values.Keys, current, values);
    if stale == {} && differing == {} {
      forall m ensures m in merged <==> m in current {
        assert m !in stale && m !in differing;
      }
      assert forall m | m in current :: m !in differing;
    }
    if m :| m in stale {
      assert m in current && m !in merged;
    }
    if m :| m in differing {
      assert m in merged && (m in current ==> !NearlyEqual(current[m], merged[m]));
    }
  }

  // ---------------------------------------------------------------- feed values and change count, exactly

  lemma ValuesExact(raw: map<Name, Number>, official: set<Name>, round: real -> real, m: Name)
    ensures var values := OfficialValues(raw, official, round);
            && (m in values <==> m in official && m in raw && raw[m].Finite? && raw[m].value >= 0.0)
            && (m in values ==> values[m] == round(raw[m].value))
  {
  }

  /** The count is of official models that lose their value and of values that are new or move by 1e-9 or more. */
  lemma ChangesCounted(current: map<Name, real>, values: map<Name, real>, official: set<Name>)
    ensures ChangeCount(current, values, official)
         == |Lost(current, values, official)| + |Moved(current, values)|
  {
    hide StaleIn, DifferingIn, Lost, Moved;
    StaleIsLost(current, values, official);
    DifferingIsMoved(current, values);
  }

  lemma StaleIsLost(current: map<Name, real>, values: map<Name, real>, official: set<Name>)
    ensures StaleIn(current.Keys, values, official) == Lost(current, values, official)
  {
  }

  lemma DiffersMoves(m: Name, current: map<Name, real>, values: map<Name, real>)
    requires m in values
    ensures Differs(m, current, values) <==> Moves(m, current, values)
  {
  }

  lemma DifferingIsMoved(current: map<Name, real>, values: map<Name, real>)
    ensures DifferingIn(values.Keys, current, values) == Moved(current, values)
  {
    hide Differs, Moves;
    forall m ensures m in DifferingIn(values.Keys, current, values) <==> m in Moved(current, values) {
      if m in values {
        DiffersMoves(m, current, values);
      }
    }
  }

  predicate Moves(m: Name, current: map<Name, real>, values: map<Name, real>)
    requires m in values
  {
    !(m in current && -0.000000001 < current[m] - values[m] < 0.000000001)
  }

  function Lost(current: map<Name, real>, values: map<Name, real>, official: set<Name>): set<Name> {
    current.Keys * official - values.Keys
  }

  function Moved(current: map<Name, real>, values: map<Name, real>): set<Name> {
    set m | m in values && Moves(m, current, values)
  }
}
