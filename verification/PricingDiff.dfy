/**
 The price comparison between local settings and upstream channels: which (model, field) prices
 differ, for which channels, and which of them look trustworthy.
 */
module PricingDiff {

  /** A dynamically typed value, as it comes out of JSON or the settings. */
  datatype Any = Nil | Num(value: real) | Int(i: int) | Text(s: string)

  const SAME := Text("same")

  /** `pricingSyncFields`. */
  function SyncFields(): seq<string> {
    ["model_ratio", "completion_ratio", "cache_ratio", "create_cache_ratio", "image_ratio", "audio_ratio",
     "audio_completion_ratio", "model_price", "billing_mode", "billing_expr"]
  }

  /** `numericPricingSyncFields`. */
  predicate Numeric(field: string) {
    field in SyncFields()[..8]
  }

  const EPSILON := 0.000000001

  type Table = map<string, map<string, Any>>

  datatype Channel = Channel(name: string, data: Table)

  datatype Item = Item(current: Any, upstreams: map<string, Any>, confidence: map<string, bool>)

  /** A model name and a price field. */
  type Key = (string, string)

  predicate NearlyEqual(a: real, b: real) {
    if a > b then a - b < EPSILON else b - a < EPSILON
  }

  predicate ValuesEqual(a: Any, b: Any) {
    if a.Num? && b.Num? then NearlyEqual(a.value, b.value) else a == b
  }

  function NormalizeValue(field: string, v: Any): Any {
    if Numeric(field) && v.Int? then Num(v.i as real) else v
  }

  function AsFloat(v: Any): (real, bool) {
    match v
    case Num(r) => (r, true)
    case Int(i) => (i as real, true)
    case _ => (0.0, false)
  }

  predicate Supplies(t: Table, k: Key) {
    k.1 in t && k.0 in t[k.1]
  }

  function ValueAt(t: Table, k: Key): Any {
    if Supplies(t, k) then NormalizeValue(k.1, t[k.1][k.0]) else Nil
  }

  function Column(t: Table, field: string): map<string, Any> {
    if field in t then t[field] else map[]
  }

  /** Not the telltale placeholder of 37.5 with completion ratio 1. */
  predicate Confident(ch: Channel, m: string) {
    var ratios, completions := Column(ch.data, "model_ratio"), Column(ch.data, "completion_ratio");
    !(|ratios| > 0 && |completions| > 0 && m in ratios && m in completions
      && AsFloat(ratios[m]).1 && AsFloat(completions[m]).1
      && NearlyEqual(AsFloat(ratios[m]).0, 37.5) && NearlyEqual(AsFloat(completions[m]).0, 1.0))
  }

  /** The cell shown for one channel: its value, "same", or nothing. */
  function Cell(local: Any, supplied: bool, value: Any): Any {
    var up := if !supplied then Nil
              else if !(local != Nil && !ValuesEqual(local, value)) && ValuesEqual(local, value) then SAME
              else value;
    if up == Nil && local == Nil then SAME else up
  }

  /** The comparison marks a difference. */
  predicate Marks(local: Any, supplied: bool, value: Any) {
    || (supplied && local != Nil && !ValuesEqual(local, value))
    || (local == Nil && Cell(local, supplied, value) != Nil && Cell(local, supplied, value) != SAME)
  }

  /** The channel supplies a value that is absent locally or not equal to the local one. */
  predicate RealDifference(local: Table, ch: Channel, k: Key) {
    Supplies(ch.data, k) && (!Supplies(local, k) || !ValuesEqual(ValueAt(local, k), ValueAt(ch.data, k)))
  }

  function CellOf(local: Table, ch: Channel, k: Key): Any {
    Cell(ValueAt(local, k), Supplies(ch.data, k), ValueAt(ch.data, k))
  }

  // ---------------------------------------------------------------- what the tests mean

  /** A number of either kind. */
  predicate IsNumber(v: Any) {
    v.Num? || v.Int?
  }

  function Number(v: Any): real
    requires IsNumber(v)
  {
    if v.Num? then v.value else v.i as real
  }

  function Distance(a: real, b: real): (d: real)
    ensures d >= 0.0 && (d == a - b || d == b - a)
  {
    if a < b then b - a else a - b
  }

  /** In the eight price fields numbers of either kind are compared as such, and differ when they are 1e-9 or more
      apart; in the two billing fields only floats are, and everything else must be the same value. */
  predicate Apart(field: string, a: Any, b: Any) {
    var asNumbers := if field in {"billing_mode", "billing_expr"} then a.Num? && b.Num? else IsNumber(a) && IsNumber(b);
    if asNumbers then Distance(Number(a), Number(b)) >= 0.000000001 else a != b
  }

  /** A real difference is a supplied value that is absent locally or apart from the local one. */
  lemma RealDifferenceIff(local: Table, ch: Channel, k: Key)
    requires k.1 in SyncFields()
    ensures RealDifference(local, ch, k) <==>
              && k.1 in ch.data && k.0 in ch.data[k.1]
              && (k.1 !in local || k.0 !in local[k.1] || Apart(k.1, local[k.1][k.0], ch.data[k.1][k.0]))
  {
  }

  /** A price of 37.5 with a completion ratio of 1, to within 1e-9, is all that is not trusted. */
  lemma ConfidentIff(ch: Channel, m: string)
    ensures !Confident(ch, m) <==>
              && "model_ratio" in ch.data && m in ch.data["model_ratio"]
              && "completion_ratio" in ch.data && m in ch.data["completion_ratio"]
              && var ratio, completion := ch.data["model_ratio"][m], ch.data["completion_ratio"][m];
                 && IsNumber(ratio) && Distance(Number(ratio), 37.5) < 0.000000001
                 && IsNumber(completion) && Distance(Number(completion), 1.0) < 0.000000001
  {
    var ratios, completions := Column(ch.data, "model_ratio"), Column(ch.data, "completion_ratio");
    assert m in ratios ==> |ratios| > 0;
    assert m in completions ==> |completions| > 0;
  }

  /** A cell reads "same" when the channel agrees, or both are silent, or the channel says so itself; it is empty when
      only the channel is silent (a null counts as silence); otherwise it shows the channel's value. */
  lemma CellReads(local: Table, ch: Channel, k: Key)
    ensures var here, there, cell := ValueAt(local, k), ValueAt(ch.data, k), CellOf(local, ch, k);
      && (cell == Text("same") <==>
            || (Supplies(ch.data, k) && ValuesEqual(here, there))
            || (here == Nil && there == Nil) || there == Text("same"))
      && (cell == Nil <==> here != Nil && there == Nil)
      && (cell != Text("same") ==> cell == there)
  {
  }

  /** No null and no literal "same" among the values. */
  ghost predicate Proper(t: Table) {
    forall f, m :: f in t && m in t[f] ==> t[f][m] != Nil && t[f][m] != SAME
  }

  predicate Shows(cell: Any) {
    cell != Nil && cell != SAME
  }

  /** Exactly when a cell is right about its channel: unless the real difference is itself a null or a
      literal "same", which the cell takes for silence or agreement.  It never shows what is no difference. */
  lemma CellRightIff(local: Table, ch: Channel, k: Key)
    ensures (Shows(CellOf(local, ch, k)) <==> RealDifference(local, ch, k))
            <==> !(RealDifference(local, ch, k) && !Shows(ValueAt(ch.data, k)))
    ensures Shows(CellOf(local, ch, k)) ==> RealDifference(local, ch, k) && CellOf(local, ch, k) == ValueAt(ch.data, k)
  {
  }

  /** A cell shows a value exactly for a real difference. */
  lemma CellShowsDifference(local: Table, ch: Channel, k: Key)
    requires Proper(local) && Proper(ch.data)
    ensures Shows(CellOf(local, ch, k)) <==> RealDifference(local, ch, k)
    ensures RealDifference(local, ch, k) ==> CellOf(local, ch, k) == ValueAt(ch.data, k)
    ensures Marks(ValueAt(local, k), Supplies(ch.data, k), ValueAt(ch.data, k)) <==> RealDifference(local, ch, k)
  {
  }

  // ---------------------------------------------------------------- first phase

  function Upstreams(local: Table, chs: seq<Channel>, k: Key): map<string, Any> {
    if chs == [] then map[]
    else Upstreams(local, chs[..|chs| - 1], k)[chs[|chs| - 1].name := CellOf(local, chs[|chs| - 1], k)]
  }

  function Confidence(chs: seq<Channel>, m: string): map<string, bool> {
    if chs == [] then map[]
    else Confidence(chs[..|chs| - 1], m)[chs[|chs| - 1].name := Confident(chs[|chs| - 1], m)]
  }

  function FullItem(local: Table, chs: seq<Channel>, k: Key): Item {
    Item(ValueAt(local, k), Upstreams(local, chs, k), Confidence(chs, k.0))
  }

  ghost predicate DifferenceAt(local: Table, chs: seq<Channel>, k: Key) {
    exists i :: 0 <= i < |chs| && RealDifference(local, chs[i], k)
  }

  ghost predicate AllProper(local: Table, chs: seq<Channel>) {
    Proper(local) && forall i :: 0 <= i < |chs| ==> Proper(chs[i].data)
  }

  ghost predicate DistinctNames(chs: seq<Channel>) {
    forall i, j :: 0 <= i < j < |chs| ==> chs[i].name != chs[j].name
  }

  /** One channel against the local value: the cell it shows and whether it marks a difference. */
  method CompareOne(localValue: Any, supplied: bool, value: Any) returns (cell: Any, difference: bool)
    ensures cell == Cell(localValue, supplied, value)
    ensures difference == Marks(localValue, supplied, value)
  {
    cell, difference := Nil, false;
    if supplied {
      cell := value;
      if localValue != Nil && !ValuesEqual(localValue, cell) {
        difference := true;
      } else if ValuesEqual(localValue, cell) {
        cell := SAME;
      }
    }
    if cell == Nil && localValue == Nil {
      cell := SAME;
    }
    if localValue == Nil && cell != Nil && cell != SAME {
      difference := true;
    }
  }

  lemma OneMore(local: Table, chs: seq<Channel>, k: Key, i: nat)
    requires i < |chs|
    ensures Upstreams(local, chs[..i + 1], k) == Upstreams(local, chs[..i], k)[chs[i].name := CellOf(local, chs[i], k)]
    ensures Confidence(chs[..i + 1], k.0) == Confidence(chs[..i], k.0)[chs[i].name := Confident(chs[i], k.0)]
  {
    assert chs[..i + 1][..i] == chs[..i];
  }

  /** The first phase lists a (model, field): some channel marks a difference, or supplies what is absent
      (or null) locally. */
  ghost predicate Listed(local: Table, chs: seq<Channel>, k: Key) {
    if ValueAt(local, k) != Nil
    then exists i :: 0 <= i < |chs| && Marks(ValueAt(local, k), Supplies(chs[i].data, k), ValueAt(chs[i].data, k))
    else exists i :: 0 <= i < |chs| && Supplies(chs[i].data, k)
  }

  /** One (model, field): compare every channel with the local value. */
  method Compare(local: Table, chs: seq<Channel>, k: Key) returns (item: Item, listed: bool)
    ensures item == FullItem(local, chs, k)
    ensures listed <==> Listed(local, chs, k)
  {
    hide Upstreams, Confidence, Confident, Marks, Cell, Supplies;
    var localValue := ValueAt(local, k);
    var upstreams: map<string, Any>, confidence: map<string, bool> := map[], map[];
    var hasUpstreamValue, hasDifference := false, false;
    NoneYet(local, k);
    for i := 0 to |chs|
      invariant upstreams == Upstreams(local, chs[..i], k) && confidence == Confidence(chs[..i], k.0)
      invariant hasUpstreamValue <==> exists j :: 0 <= j < i && Supplies(chs[j].data, k)
      invariant hasDifference <==> exists j ::
            0 <= j < i && Marks(localValue, Supplies(chs[j].data, k), ValueAt(chs[j].data, k))
    {
      var ch := chs[i];
      var cell, difference := CompareOne(localValue, Supplies(ch.data, k), ValueAt(ch.data, k));
      hasUpstreamValue := hasUpstreamValue || Supplies(ch.data, k);
      hasDifference := hasDifference || difference;
      OneMore(local, chs, k, i);
      upstreams := upstreams[ch.name := cell];
      confidence := confidence[ch.name := Confident(ch, k.0)];
    }
    assert chs[..|chs|] == chs;
    item := Item(localValue, upstreams, confidence);
    listed := if localValue != Nil then hasDifference else hasUpstreamValue;
  }

  lemma NoneYet(local: Table, k: Key)
    ensures Upstreams(local, [], k) == map[] && Confidence([], k.0) == map[]
  {
  }

  function ModelsIn(t: Table): set<string> {
    set f, m | f in SyncFields() && f in t && m in t[f] :: m
  }

  function AllModels(local: Table, chs: seq<Channel>): set<string> {
    ModelsIn(local) + set i, m | 0 <= i < |chs| && m in ModelsIn(chs[i].data) :: m
  }

  lemma ListedInModels(local: Table, chs: seq<Channel>, k: Key)
    requires Listed(local, chs, k) && k.1 in SyncFields()
    ensures k.0 in AllModels(local, chs)
  {
    var i :| 0 <= i < |chs| && Supplies(chs[i].data, k);
    assert k.0 in ModelsIn(chs[i].data);
  }

  /** Every listed (model, field), before channels are filtered. */
  method CollectDifferences(local: Table, chs: seq<Channel>) returns (d: map<Key, Item>)
    ensures forall k :: k in d <==> k.1 in SyncFields() && Listed(local, chs, k)
    ensures forall k :: k in d ==> d[k] == FullItem(local, chs, k)
  {
    hide SyncFields, Listed, FullItem, AllModels;
    var fields := SyncFields();
    d := map[];
    var todo := AllModels(local, chs);
    ghost var done: set<string> := {};
    while todo != {}
      invariant todo !! done && todo + done == AllModels(local, chs)
      invariant forall k :: k in d <==> k.1 in SyncFields() && k.0 in done && Listed(local, chs, k)
      invariant forall k :: k in d ==> d[k] == FullItem(local, chs, k)
      decreases todo
    {
      var m :| m in todo;
      for f := 0 to |fields|
        invariant forall k :: k in d <==>
                    ((k.1 in fields && k.0 in done) || (k.0 == m && k.1 in fields[..f])) && Listed(local, chs, k)
        invariant forall k :: k in d ==> d[k] == FullItem(local, chs, k)
      {
        var item, listed := Compare(local, chs, (m, fields[f]));
        assert fields[..f + 1] == fields[..f] + [fields[f]];
        if listed {
          d := d[(m, fields[f]) := item];
        }
      }
      assert fields[..|fields|] == fields;
      todo, done := todo - {m}, done + {m};
    }
    forall k: Key | k.1 in SyncFields() && Listed(local, chs, k)
      ensures k.0 in done
    {
      ListedInModels(local, chs, k);
    }
  }

  // ---------------------------------------------------------------- second phase

  /** The channel has a real difference somewhere. */
  ghost predicate Differs(local: Table, ch: Channel) {
    exists k: Key :: k.1 in SyncFields() && RealDifference(local, ch, k)
  }

  /** Some cell shows a value of the channel. */
  ghost predicate ShownSomewhere(local: Table, ch: Channel) {
    exists k: Key :: k.1 in SyncFields() && Shows(CellOf(local, ch, k))
  }

  ghost function Showing(local: Table, chs: seq<Channel>): set<string> {
    set i | 0 <= i < |chs| && ShownSomewhere(local, chs[i]) :: chs[i].name
  }

  ghost function Differing(local: Table, chs: seq<Channel>): set<string> {
    set i | 0 <= i < |chs| && Differs(local, chs[i]) :: chs[i].name
  }

  function Names(chs: seq<Channel>): set<string> {
    set i | 0 <= i < |chs| :: chs[i].name
  }

  lemma NamesMore(chs: seq<Channel>)
    requires chs != []
    ensures Names(chs) == Names(chs[..|chs| - 1]) + {chs[|chs| - 1].name}
  {
    var front := chs[..|chs| - 1];
    assert forall i :: 0 <= i < |front| ==> chs[i].name == front[i].name;
  }

  lemma {:induction false} UpstreamsKeys(local: Table, chs: seq<Channel>, k: Key)
    ensures Upstreams(local, chs, k).Keys == Confidence(chs, k.0).Keys == Names(chs)
  {
    if chs != [] {
      UpstreamsKeys(local, chs[..|chs| - 1], k);
      NamesMore(chs);
    }
  }

  lemma {:induction false} UpstreamsAt(local: Table, chs: seq<Channel>, k: Key, i: nat)
    requires DistinctNames(chs) && i < |chs|
    ensures chs[i].name in Upstreams(local, chs, k) && chs[i].name in Confidence(chs, k.0)
    ensures Upstreams(local, chs, k)[chs[i].name] == CellOf(local, chs[i], k)
    ensures Confidence(chs, k.0)[chs[i].name] == Confident(chs[i], k.0)
  {
    hide CellOf, Confident;
    if i < |chs| - 1 {
      UpstreamsAt(local, chs[..|chs| - 1], k, i);
      assert chs[..|chs| - 1][i] == chs[i];
    }
  }

  ghost predicate ShownIn(d: map<Key, Item>, n: string) {
    exists k :: k in d && n in d[k].upstreams && Shows(d[k].upstreams[n])
  }

  /** An entry worth keeping once only `names` are left: not empty and not all "same". */
  ghost predicate Kept(item: Item, names: set<string>) {
    exists n :: n in item.upstreams && n in names && item.upstreams[n] != SAME
  }

  /** `channelHasDiff`: the channels some collected cell shows a value for. */
  method ChannelsShown(d: map<Key, Item>) returns (names: set<string>)
    ensures forall n :: n in names <==> ShownIn(d, n)
  {
    names := {};
    var todo := d.Keys;
    while todo != {}
      invariant todo <= d.Keys
      invariant forall n :: n in names <==> exists k ::
            k in d && k !in todo && n in d[k].upstreams && Shows(d[k].upstreams[n])
      decreases todo
    {
      var k :| k in todo;
      var shown := set n | n in d[k].upstreams && Shows(d[k].upstreams[n]);
      names := names + shown;
      todo := todo - {k};
    }
  }

  function Restricted(item: Item, names: set<string>): Item {
    Item(item.current,
         map n | n in item.upstreams && n in names :: item.upstreams[n],
         map n | n in item.confidence && n in names :: item.confidence[n])
  }

  /** Drop the channels without a difference, then the entries left empty or all "same". */
  method FilterItems(d: map<Key, Item>, names: set<string>) returns (r: map<Key, Item>)
    ensures forall k :: k in r <==> k in d && Kept(d[k], names)
    ensures forall k :: k in r ==> r[k] == Restricted(d[k], names)
  {
    r := d;
    var todo := d.Keys;
    while todo != {}
      invariant todo <= d.Keys && r.Keys <= d.Keys
      invariant forall k :: k in todo ==> k in r && r[k] == d[k]
      invariant forall k :: k in d && k !in todo ==>
                  (k in r <==> Kept(d[k], names))
      invariant forall k :: k in r && k !in todo ==> r[k] == Restricted(d[k], names)
      decreases todo
    {
      var k :| k in todo;
      var item := Restricted(d[k], names);
      var allSame := forall n | n in item.upstreams :: item.upstreams[n] == SAME;
      assert forall n :: n in item.upstreams <==> n in d[k].upstreams && n in names;
      assert allSame <==> !Kept(d[k], names);
      if |item.upstreams| == 0 || allSame {
        r := r - {k};
      } else {
        r := r[k := item];
      }
      todo := todo - {k};
    }
  }

  /** A cell that shows a value belongs to a listed (model, field). */
  lemma ShownIsListed(local: Table, chs: seq<Channel>, k: Key, i: nat)
    requires i < |chs| && Shows(CellOf(local, chs[i], k))
    ensures Listed(local, chs, k) && RealDifference(local, chs[i], k)
  {
    assert Supplies(chs[i].data, k);
    assert ValueAt(local, k) != Nil ==> Marks(ValueAt(local, k), Supplies(chs[i].data, k), ValueAt(chs[i].data, k));
  }

  /** The collected cells show a value for exactly the channels shown anywhere. */
  lemma CollectedShowAll(local: Table, chs: seq<Channel>, d: map<Key, Item>, names: set<string>)
    requires DistinctNames(chs)
    requires forall k :: k in d <==> k.1 in SyncFields() && Listed(local, chs, k)
    requires forall k :: k in d ==> d[k] == FullItem(local, chs, k)
    requires forall n :: n in names <==> ShownIn(d, n)
    ensures names == Showing(local, chs)
  {
    hide SyncFields, CellOf, Listed;
    forall n | n in names
      ensures n in Showing(local, chs)
    {
      var k :| k in d && n in d[k].upstreams && Shows(d[k].upstreams[n]);
      UpstreamsKeys(local, chs, k);
      var i :| 0 <= i < |chs| && chs[i].name == n;
      UpstreamsAt(local, chs, k, i);
    }
    forall n | n in Showing(local, chs)
      ensures n in names
    {
      var i :| 0 <= i < |chs| && ShownSomewhere(local, chs[i]) && chs[i].name == n;
      var k: Key :| k.1 in SyncFields() && Shows(CellOf(local, chs[i], k));
      ShownIsListed(local, chs, k, i);
      UpstreamsAt(local, chs, k, i);
      assert k in d && n in d[k].upstreams && Shows(d[k].upstreams[n]);
    }
  }

  /** Some channel that is shown anywhere reads other than "same" at this (model, field). */
  ghost predicate Visible(local: Table, chs: seq<Channel>, k: Key) {
    exists i :: 0 <= i < |chs| && ShownSomewhere(local, chs[i]) && CellOf(local, chs[i], k) != SAME
  }

  lemma KeptIff(local: Table, chs: seq<Channel>, k: Key)
    requires DistinctNames(chs)
    ensures Kept(FullItem(local, chs, k), Showing(local, chs)) <==> Visible(local, chs, k)
  {
    hide CellOf, ShownSomewhere;
    var item, names := FullItem(local, chs, k), Showing(local, chs);
    if Kept(item, names) {
      var n :| n in item.upstreams && n in names && item.upstreams[n] != SAME;
      var i :| 0 <= i < |chs| && ShownSomewhere(local, chs[i]) && chs[i].name == n;
      UpstreamsAt(local, chs, k, i);
    }
    if i :| 0 <= i < |chs| && ShownSomewhere(local, chs[i]) && CellOf(local, chs[i], k) != SAME {
      UpstreamsAt(local, chs, k, i);
      assert chs[i].name in names && chs[i].name in item.upstreams && item.upstreams[chs[i].name] != SAME;
    }
  }

  /** A listed and visible (model, field) has a real difference, and a real difference is listed. */
  lemma ListedVisibleDiffers(local: Table, chs: seq<Channel>, k: Key)
    ensures Listed(local, chs, k) && Visible(local, chs, k) ==> DifferenceAt(local, chs, k)
    ensures DifferenceAt(local, chs, k) ==> Listed(local, chs, k)
  {
    if Listed(local, chs, k) && Visible(local, chs, k) {
      if ValueAt(local, k) != Nil {
        var i :| 0 <= i < |chs| && Marks(ValueAt(local, k), Supplies(chs[i].data, k), ValueAt(chs[i].data, k));
        assert RealDifference(local, chs[i], k);
      } else {
        var i :| 0 <= i < |chs| && ShownSomewhere(local, chs[i]) && CellOf(local, chs[i], k) != SAME;
        assert RealDifference(local, chs[i], k);
      }
    }
    if i :| 0 <= i < |chs| && RealDifference(local, chs[i], k) {
      assert Supplies(chs[i].data, k);
      assert ValueAt(local, k) != Nil ==> Marks(ValueAt(local, k), Supplies(chs[i].data, k), ValueAt(chs[i].data, k));
    }
  }

  /** Without nulls and literal "same"s the channels shown are those that really differ somewhere, and
      every real difference is visible: the filter never drops one. */
  lemma DifferenceSurvives(local: Table, chs: seq<Channel>)
    requires AllProper(local, chs)
    ensures Showing(local, chs) == Differing(local, chs)
    ensures forall i :: 0 <= i < |chs| ==> (ShownSomewhere(local, chs[i]) <==> Differs(local, chs[i]))
    ensures forall k: Key :: k.1 in SyncFields() && DifferenceAt(local, chs, k) ==> Visible(local, chs, k)
  {
    hide SyncFields, CellOf, RealDifference, Proper;
    forall i, k | 0 <= i < |chs| ensures Shows(CellOf(local, chs[i], k)) <==> RealDifference(local, chs[i], k) {
      CellShowsDifference(local, chs[i], k);
    }
    forall i | 0 <= i < |chs| ensures ShownSomewhere(local, chs[i]) <==> Differs(local, chs[i]) {
      if ShownSomewhere(local, chs[i]) {
        var k: Key :| k.1 in SyncFields() && Shows(CellOf(local, chs[i], k));
        assert RealDifference(local, chs[i], k);
      }
      if Differs(local, chs[i]) {
        var k: Key :| k.1 in SyncFields() && RealDifference(local, chs[i], k);
        assert Shows(CellOf(local, chs[i], k));
      }
    }
    forall k: Key | k.1 in SyncFields() && DifferenceAt(local, chs, k) ensures Visible(local, chs, k) {
      var i :| 0 <= i < |chs| && RealDifference(local, chs[i], k);
      assert Shows(CellOf(local, chs[i], k)) && Differs(local, chs[i]);
    }
  }

  /** What the comparison reports for one (model, field). */
  ghost predicate Exact(local: Table, chs: seq<Channel>, k: Key, item: Item) {
    && item.current == ValueAt(local, k)
    && item.upstreams.Keys == Showing(local, chs) && item.confidence.Keys == Showing(local, chs)
    && forall i :: 0 <= i < |chs| && ShownSomewhere(local, chs[i]) ==>
         && item.upstreams[chs[i].name] == CellOf(local, chs[i], k)
         && item.confidence[chs[i].name] == Confident(chs[i], k.0)
  }

  lemma RestrictedExact(local: Table, chs: seq<Channel>, k: Key)
    requires DistinctNames(chs)
    ensures Exact(local, chs, k, Restricted(FullItem(local, chs, k), Showing(local, chs)))
  {
    hide CellOf, Confident, ShownSomewhere, ValueAt;
    UpstreamsKeys(local, chs, k);
    forall i | 0 <= i < |chs| && ShownSomewhere(local, chs[i])
      ensures var item := FullItem(local, chs, k);
              && chs[i].name in Showing(local, chs) && chs[i].name in item.upstreams && chs[i].name in item.confidence
              && item.upstreams[chs[i].name] == CellOf(local, chs[i], k)
              && item.confidence[chs[i].name] == Confident(chs[i], k.0)
    {
      UpstreamsAt(local, chs, k, i);
    }
  }

  /** `buildDifferences`, on all data: an entry for exactly the (model, field)s where some channel really
      differs and some channel shown anywhere reads other than "same", naming exactly the channels shown
      anywhere, with each one's own cell.  Without nulls and literal "same"s that is an entry for exactly
      the real differences, naming exactly the channels that really differ somewhere. */
  method BuildDifferences(local: Table, chs: seq<Channel>) returns (r: map<Key, Item>)
    requires DistinctNames(chs)
    ensures forall k :: k in r <==> k.1 in SyncFields() && DifferenceAt(local, chs, k) && Visible(local, chs, k)
    ensures forall k :: k in r ==> Exact(local, chs, k, r[k])
    ensures AllProper(local, chs) ==> forall k :: k in r <==> k.1 in SyncFields() && DifferenceAt(local, chs, k)
    ensures AllProper(local, chs) ==> forall k :: k in r ==>
              r[k].upstreams.Keys == r[k].confidence.Keys == Differing(local, chs)
  {
    hide SyncFields, DifferenceAt, FullItem, Showing, Differing, Restricted, Kept, ShownIn, AllProper, DistinctNames,
        Listed, Visible,
         ShownSomewhere, CellOf, Confident, ValueAt;
    var d := CollectDifferences(local, chs);
    var names := ChannelsShown(d);
    CollectedShowAll(local, chs, d, names);
    r := FilterItems(d, names);
    forall k: Key
      ensures k in r <==> k.1 in SyncFields() && DifferenceAt(local, chs, k) && Visible(local, chs, k)
      ensures k in r ==> Exact(local, chs, k, r[k])
    {
      KeptIff(local, chs, k);
      ListedVisibleDiffers(local, chs, k);
      RestrictedExact(local, chs, k);
    }
    if AllProper(local, chs) {
      DifferenceSurvives(local, chs);
    }
  }

  /** Nearly-equal is not transitive, so "same as local" does not make two channels' prices the same. */
  lemma NotTransitive()
    ensures var a, b, c := Num(0.0), Num(0.0000000006), Num(0.0000000012);
            ValuesEqual(a, b) && ValuesEqual(b, c) && !ValuesEqual(a, c)
  {
  }

  /** What that means for the result, at its smallest: a channel whose only news is the literal "same" has a
      real difference, and the comparison reports nothing. */
  lemma LiteralSameHidden(name: string, m: string)
    ensures var ch := Channel(name, map["billing_mode" := map[m := SAME]]);
            && RealDifference(map[], ch, (m, "billing_mode")) && CellOf(map[], ch, (m, "billing_mode")) == SAME
            && !Visible(map[], [ch], (m, "billing_mode"))
  {
    var ch := Channel(name, map["billing_mode" := map[m := SAME]]);
    forall k: Key ensures !Shows(CellOf(map[], ch, k)) {
    }
  }
}
