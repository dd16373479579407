/**
 Batch enrichment of model records.  One pass over the price list serves every rule-matched model
 through index-keyed maps, and one query fetches the channels of everything matched.  Each record
 must come out as if it had been looked up on its own.
 */
module ModelEnrich {

  const EXACT := 0
  const PREFIX := 1
  const CONTAINS := 2
  const SUFFIX := 3

  datatype BoundChannel = BoundChannel(name: string, kind: int)

  /** The endpoints column: empty, text from the database, or a freshly marshalled list. */
  datatype Endpoints = Blank | Text(text: string) | Marshalled(kinds: seq<string>)

  datatype Model = Model(
    name: string, rule: int, endpoints: Endpoints, channels: seq<BoundChannel>, groups: seq<string>,
    quotaTypes: seq<int>, matched: seq<string>, matchedCount: int)

  /** An element of the list to enrich, which may be nil. */
  datatype Slot = Nil | Rec(model: Model)

  datatype Pricing = Pricing(name: string, endpoints: seq<string>, groups: seq<string>, quotaType: int)

  /** A channel that offers a model, from the join of channels and abilities. */
  datatype Ability = Ability(model: string, channel: BoundChannel, enabled: bool)

  datatype Database = Down | Up(abilities: seq<Ability>)

  /** Everything a call looks up: the two queries, the per-name caches and the price list. */
  datatype World = World(
    exactDb: Database, ruleDb: Database,
    endpointsOf: string -> seq<string>, groupsOf: string -> seq<string>, quotaTypesOf: string -> seq<int>,
    pricings: seq<Pricing>)

  // ---------------------------------------------------------------- one model on its own

  predicate Contains(s: string, part: string) {
    exists i | 0 <= i <= |s| :: part <= s[i..]
  }

  predicate Matches(m: Model, name: string) {
    if m.rule == PREFIX then m.name <= name
    else if m.rule == SUFFIX then |m.name| <= |name| && name[|name| - |m.name|..] == m.name
    else m.rule == CONTAINS && Contains(name, m.name)
  }

  /** `xs` holds exactly the elements of `s`, each once, in some order. */
  predicate Lists<T(==)>(xs: seq<T>, s: set<T>) {
    && (forall x <- xs :: x in s) && (forall x <- s :: x in xs)
    && (forall i, j :: 0 <= i < j < |xs| ==> xs[i] != xs[j])
  }

  function Elements<T>(xs: seq<T>): set<T> {
    set x | x in xs
  }

  predicate Ascending(xs: seq<int>) {
    forall i, j :: 0 <= i < j < |xs| ==> xs[i] < xs[j]
  }

  function MatchedNames(ps: seq<Pricing>, m: Model): seq<string> {
    if ps == [] then []
    else
      var names := MatchedNames(ps[..|ps| - 1], m);
      var p := ps[|ps| - 1];
      if Matches(m, p.name) then names + [p.name] else names
  }

  function EndpointUnion(ps: seq<Pricing>, m: Model): set<string> {
    set p, e | p in ps && Matches(m, p.name) && e in p.endpoints :: e
  }

  function GroupUnion(ps: seq<Pricing>, m: Model): set<string> {
    set p, g | p in ps && Matches(m, p.name) && g in p.groups :: g
  }

  function QuotaTypes(ps: seq<Pricing>, m: Model): set<int> {
    set p | p in ps && Matches(m, p.name) :: p.quotaType
  }

  function ChannelsOf(db: Database, name: string): set<BoundChannel> {
    if db.Down? then {} else set a | a in db.abilities && a.enabled && a.model == name :: a.channel
  }

  function ChannelUnion(db: Database, names: seq<string>): set<BoundChannel> {
    set n, c | n in names && c in ChannelsOf(db, n) :: c
  }

  /** A model with an exact name, before and after. */
  predicate ExactEnriched(w: World, m: Model, m': Model) {
    && m' == m.(channels := m'.channels, groups := w.groupsOf(m.name), quotaTypes := w.quotaTypesOf(m.name),
                endpoints := if m.endpoints == Blank then Marshalled(w.endpointsOf(m.name)) else m.endpoints)
    && Lists(m'.channels, ChannelsOf(w.exactDb, m.name))
  }

  /** A rule model, before and after: what a scan of the price list for this model alone gives. */
  predicate RuleEnriched(w: World, m: Model, m': Model) {
    var names := MatchedNames(w.pricings, m);
    var channels := ChannelUnion(w.ruleDb, names);
    && m'.name == m.name && m'.rule == m.rule
    && m'.matched == names && m'.matchedCount == |names|
    && (if names == [] then m'.groups == m.groups else Lists(m'.groups, GroupUnion(w.pricings, m)))
    && (if names == [] then m'.quotaTypes == m.quotaTypes
        else Ascending(m'.quotaTypes) && Lists(m'.quotaTypes, QuotaTypes(w.pricings, m)))
    && (if names == [] || m.endpoints != Blank then m'.endpoints == m.endpoints
        else m'.endpoints.Marshalled? && Lists(m'.endpoints.kinds, EndpointUnion(w.pricings, m)))
    && (if channels == {} then m'.channels == m.channels else Lists(m'.channels, channels))
  }

  predicate Enriched(w: World, s: Slot, s': Slot) {
    match s
    case Nil => s' == Nil
    case Rec(m) => s'.Rec? && if m.rule == EXACT then ExactEnriched(w, m, s'.model) else RuleEnriched(w, m, s'.model)
  }

  // ---------------------------------------------------------------- the text key of a channel

  function Digit(d: nat): char
    requires d < 10
  {
    '0' + d as char
  }

  function Digits(n: nat): (s: string)
    ensures |s| > 0 && forall c <- s :: '0' <= c <= '9'
  {
    if n < 10 then [Digit(n)] else Digits(n / 10) + [Digit(n % 10)]
  }

  /** Go's `strconv.Itoa`. */
  function Itoa(n: int): string {
    if n < 0 then "-" + Digits(-n) else Digits(n)
  }

  function Key(c: BoundChannel): string {
    c.name + "_" + Itoa(c.kind)
  }

  lemma {:induction false} DigitsInjective(m: nat, n: nat)
    requires Digits(m) == Digits(n)
    ensures m == n
  {
    var s, t := Digits(m), Digits(n);
    assert s[|s| - 1] == Digit(m % 10) && t[|t| - 1] == Digit(n % 10);
    if m >= 10 && n >= 10 {
      assert s[..|s| - 1] == Digits(m / 10) && t[..|t| - 1] == Digits(n / 10);
      DigitsInjective(m / 10, n / 10);
    }
  }

  lemma ItoaInjective(m: int, n: int)
    requires Itoa(m) == Itoa(n)
    ensures m == n
  {
    assert m < 0 ==> Itoa(m)[0] == '-' && Itoa(m)[1..] == Digits(-m);
    assert n < 0 ==> Itoa(n)[0] == '-' && Itoa(n)[1..] == Digits(-n);
    assert m >= 0 ==> Itoa(m)[0] in Digits(m);
    assert n >= 0 ==> Itoa(n)[0] in Digits(n);
    if m < 0 && n < 0 {
      DigitsInjective(-m, -n);
    } else if m >= 0 && n >= 0 {
      DigitsInjective(m, n);
    }
  }

  lemma ItoaPlain(n: int)
    ensures '_' !in Itoa(n)
  {
    if n < 0 {
      assert forall c <- Itoa(n) :: c == '-' || c in Digits(-n);
    }
  }

  /** Text around its last underscore can be split in one way only. */
  lemma LastUnderscore(a: string, b: string, x: string, y: string)
    requires a + "_" + x == b + "_" + y && '_' !in x && '_' !in y
    ensures a == b && x == y
  {
    var s, t := a + "_" + x, b + "_" + y;
    assert s[|a|] == '_' && t[|b|] == '_';
    assert forall k :: |a| < k < |s| ==> s[k] in x;
    assert forall k :: |b| < k < |t| ==> t[k] in y;
    assert s[..|a|] == a && t[..|b|] == b && s[|a| + 1..] == x && t[|b| + 1..] == y;
  }

  /** The key merges no two different channels, even when a name ends like a key. */
  lemma KeyInjective(c: BoundChannel, d: BoundChannel)
    requires Key(c) == Key(d)
    ensures c == d
  {
    ItoaPlain(c.kind);
    ItoaPlain(d.kind);
    LastUnderscore(c.name, d.name, Itoa(c.kind), Itoa(d.kind));
    ItoaInjective(c.kind, d.kind);
  }

  // ---------------------------------------------------------------- the specification determines the record

  lemma {:induction false} AscendingUnique(xs: seq<int>, ys: seq<int>)
    requires Ascending(xs) && Ascending(ys) && forall x :: x in xs <==> x in ys
    ensures xs == ys
  {
    assert ys != [] ==> ys[0] in ys;
    if xs != [] {
      assert xs[0] in xs;
      assert ys != [] && ys[0] in ys;
      assert ys[0] in xs && xs[0] in ys;
      forall x ensures x in xs[1..] <==> x in ys[1..] {
        if x in xs[1..] { assert x in xs && x != xs[0]; }
        if x in ys[1..] { assert x in ys && x != ys[0]; }
      }
      AscendingUnique(xs[1..], ys[1..]);
    }
  }

  /** Equal up to the order of what Go's map iteration may reorder. */
  ghost predicate SameRecord(a: Model, b: Model) {
    && a.name == b.name && a.rule == b.rule && a.matched == b.matched && a.matchedCount == b.matchedCount
    && a.quotaTypes == b.quotaTypes
    && (forall g :: g in a.groups <==> g in b.groups) && (forall c :: c in a.channels <==> c in b.channels)
    && (a.endpoints == b.endpoints
        || (a.endpoints.Marshalled? && b.endpoints.Marshalled?
            && forall e :: e in a.endpoints.kinds <==> e in b.endpoints.kinds))
  }

  /** So it does not matter which other models, and how many, were enriched in the same call. */
  lemma EnrichedDetermines(w: World, m: Model, a: Model, b: Model)
    requires Enriched(w, Rec(m), Rec(a)) && Enriched(w, Rec(m), Rec(b))
    ensures SameRecord(a, b)
  {
    if m.rule != EXACT && MatchedNames(w.pricings, m) != [] {
      AscendingUnique(a.quotaTypes, b.quotaTypes);
    }
  }

  /** A name is reported as matched exactly when the price list has it and the rule accepts it. */
  lemma {:induction false} MatchedNamesMember(ps: seq<Pricing>, m: Model, n: string)
    ensures n in MatchedNames(ps, m) <==> Matches(m, n) && exists p <- ps :: p.name == n
  {
    if ps != [] {
      var front, p := ps[..|ps| - 1], ps[|ps| - 1];
      assert ps == front + [p];
      MatchedNamesMember(front, m, n);
    }
  }

  /** Rule 1 accepts the names that begin with the record's, rule 3 those that end with it, rule 2 those that
      contain it, and no other rule accepts any. */
  lemma MatchesLaw(m: Model, name: string)
    ensures m.rule == 1 ==> (Matches(m, name) <==> exists t :: name == m.name + t)
    ensures m.rule == 3 ==> (Matches(m, name) <==> exists t :: name == t + m.name)
    ensures m.rule == 2 ==> (Matches(m, name) <==> exists t, u :: name == t + m.name + u)
    ensures m.rule !in {1, 2, 3} ==> !Matches(m, name)
  {
    BeginsEnds(m.name, name);
    ContainsIff(m.name, name);
  }

  lemma BeginsEnds(part: string, name: string)
    ensures part <= name <==> exists t :: name == part + t
    ensures |part| <= |name| && name[|name| - |part|..] == part <==> exists t :: name == t + part
  {
    if part <= name {
      assert name == part + name[|part|..];
    }
    if |part| <= |name| && name[|name| - |part|..] == part {
      assert name == name[..|name| - |part|] + part;
    }
  }

  lemma ContainsIff(part: string, name: string)
    ensures Contains(name, part) <==> exists t, u :: name == t + part + u
  {
    if Contains(name, part) {
      var i :| 0 <= i <= |name| && part <= name[i..];
      assert name == name[..i] + part + name[i + |part|..];
    }
    if t, u :| name == t + part + u {
      assert name[|t|..] == part + u;
    }
  }

  predicate Offers(db: Database, name: string, c: BoundChannel) {
    db.Up? && Ability(name, c, true) in db.abilities
  }

  /** What the fields of an enriched rule record hold, entry by entry of the price list and row by row of the
      database. */
  lemma RuleRecordHolds(w: World, m: Model, m': Model)
    requires Enriched(w, Rec(m), Rec(m')) && m.rule != 0
    ensures m'.name == m.name && m'.rule == m.rule && m'.matchedCount == |m'.matched|
    ensures forall n :: n in m'.matched <==> Matches(m, n) && exists p <- w.pricings :: p.name == n
    ensures m'.matched == [] ==> m' == m.(matched := [], matchedCount := 0)
    ensures m'.matched != [] ==>
              && (forall g :: g in m'.groups <==> exists p <- w.pricings :: Matches(m, p.name) && g in p.groups)
              && (forall q :: q in m'.quotaTypes <==> exists p <- w.pricings :: Matches(m, p.name) && q == p.quotaType)
              && (forall i, j :: 0 <= i < j < |m'.quotaTypes| ==> m'.quotaTypes[i] < m'.quotaTypes[j])
    ensures m'.matched != [] && m.endpoints == Blank ==>
              && m'.endpoints.Marshalled?
              && forall e :: e in m'.endpoints.kinds <==>
                   exists p <- w.pricings :: Matches(m, p.name) && e in p.endpoints
    ensures m.endpoints != Blank ==> m'.endpoints == m.endpoints
    ensures if exists n <- m'.matched, c :: Offers(w.ruleDb, n, c)
            then (forall c :: c in m'.channels <==> exists n <- m'.matched :: Offers(w.ruleDb, n, c))
                 && forall i, j :: 0 <= i < j < |m'.channels| ==> m'.channels[i] != m'.channels[j]
            else m'.channels == m.channels
  {
    forall n ensures n in m'.matched <==> Matches(m, n) && exists p <- w.pricings :: p.name == n {
      MatchedNamesMember(w.pricings, m, n);
    }
    OffersChannels(w.ruleDb, m'.matched);
    hide Matches, MatchedNames, ChannelUnion, Offers;
    var cs := ChannelUnion(w.ruleDb, m'.matched);
    if n, c :| n in m'.matched && Offers(w.ruleDb, n, c) {
      assert c in cs;
    }
  }

  lemma OffersChannels(db: Database, names: seq<string>)
    ensures forall c :: c in ChannelUnion(db, names) <==> exists n <- names :: Offers(db, n, c)
  {
    forall n, c ensures c in ChannelsOf(db, n) <==> Offers(db, n, c) {
    }
  }

  /** The same of a record with an exact name, which is looked up by that name alone. */
  lemma ExactRecordHolds(w: World, m: Model, m': Model)
    requires Enriched(w, Rec(m), Rec(m')) && m.rule == 0
    ensures m'.name == m.name && m'.rule == 0 && m'.matched == m.matched && m'.matchedCount == m.matchedCount
    ensures m'.groups == w.groupsOf(m.name) && m'.quotaTypes == w.quotaTypesOf(m.name)
    ensures m'.endpoints == if m.endpoints == Blank then Marshalled(w.endpointsOf(m.name)) else m.endpoints
    ensures forall c :: c in m'.channels <==> Offers(w.exactDb, m.name, c)
  {
    forall c ensures c in ChannelsOf(w.exactDb, m.name) <==> Offers(w.exactDb, m.name, c) {
    }
  }

  // ---------------------------------------------------------------- small loops

  lemma ListsAppend<T>(xs: seq<T>, s: set<T>, x: T)
    requires Lists(xs, s) && x !in s
    ensures Lists(xs + [x], s + {x})
  {
  }

  method ToList<T(==)>(s: set<T>) returns (xs: seq<T>)
    ensures Lists(xs, s)
  {
    xs := [];
    var todo := s;
    while todo != {}
      invariant todo <= s && Lists(xs, s - todo)
      decreases todo
    {
      var x :| x in todo;
      todo := todo - {x};
      xs := xs + [x];
    }
  }

  method AddAll(s: set<string>, xs: seq<string>) returns (r: set<string>)
    ensures r == s + Elements(xs)
  {
    r := s;
    for i := 0 to |xs|
      invariant r == s + Elements(xs[..i])
    {
      assert xs[..i + 1] == xs[..i] + [xs[i]];
      r := r + {xs[i]};
    }
    assert xs[..|xs|] == xs;
  }

  /** `r'` is `r` with `x` put in at `k`. */
  ghost predicate Inserted(r: seq<int>, k: nat, x: int, r': seq<int>) {
    && k <= |r| && |r'| == |r| + 1 && r'[k] == x
    && (forall i :: 0 <= i < k ==> r'[i] == r[i]) && (forall i :: k < i < |r'| ==> r'[i] == r[i - 1])
  }

  lemma InsertedAscends(r: seq<int>, k: nat, x: int, r': seq<int>)
    requires Ascending(r) && Inserted(r, k, x, r') && (k > 0 ==> r[k - 1] < x) && (k < |r| ==> x < r[k])
    ensures Ascending(r')
  {
    forall i, j | 0 <= i < j < |r'| ensures r'[i] < r'[j] {
      assert i < k ==> r[i] <= r[k - 1] < x;
      assert j > k ==> x < r[k] <= r[j - 1];
    }
  }

  lemma InsertedMembers(r: seq<int>, k: nat, x: int, r': seq<int>)
    requires Inserted(r, k, x, r')
    ensures forall y :: y in r' <==> y == x || y in r
  {
    forall y | y in r ensures y in r' {
      var i :| 0 <= i < |r| && r[i] == y;
      assert i < k ==> r'[i] == y;
      assert i >= k ==> r'[i + 1] == y;
    }
  }

  method InsertInt(r: seq<int>, x: int) returns (r': seq<int>)
    requires Ascending(r) && x !in r
    ensures Ascending(r') && forall y :: y in r' <==> y == x || y in r
  {
    var k := 0;
    while k < |r| && r[k] < x
      invariant 0 <= k <= |r| && forall j :: 0 <= j < k ==> r[j] < x
    {
      k := k + 1;
    }
    assert k < |r| ==> r[k] in r;
    r' := r[..k] + [x] + r[k..];
    assert Inserted(r, k, x, r');
    InsertedAscends(r, k, x, r');
    InsertedMembers(r, k, x, r');
  }

  method SortInts(xs: seq<int>) returns (r: seq<int>)
    requires forall i, j :: 0 <= i < j < |xs| ==> xs[i] != xs[j]
    ensures Ascending(r) && forall x :: x in r <==> x in xs
  {
    r := [];
    for i := 0 to |xs|
      invariant Ascending(r) && forall x :: x in r <==> x in xs[..i]
    {
      assert xs[..i + 1] == xs[..i] + [xs[i]];
      assert xs[i] !in xs[..i];
      r := InsertInt(r, xs[i]);
    }
    assert xs[..|xs|] == xs;
  }

  function Lookup<T>(m: map<string, seq<T>>, key: string): seq<T> {
    if key in m then m[key] else []
  }

  datatype Row = Row(model: string, channel: BoundChannel)

  /** The rows of the query: distinct, in no particular order. */
  method SelectDistinct(abilities: seq<Ability>, names: seq<string>) returns (rows: seq<Row>)
    ensures forall i, j :: 0 <= i < j < |rows| ==> rows[i] != rows[j]
    ensures forall n, c :: Row(n, c) in rows <==> n in names && Ability(n, c, true) in abilities
  {
    rows := [];
    for i := 0 to |abilities|
      invariant forall i, j :: 0 <= i < j < |rows| ==> rows[i] != rows[j]
      invariant forall n, c :: Row(n, c) in rows <==> n in names && Ability(n, c, true) in abilities[..i]
    {
      var a := abilities[i];
      assert abilities[..i + 1] == abilities[..i] + [a];
      if a.enabled && a.model in names && Row(a.model, a.channel) !in rows {
        rows := rows + [Row(a.model, a.channel)];
      }
    }
    assert abilities[..|abilities|] == abilities;
  }

  function RowChannels(rows: seq<Row>, n: string): set<BoundChannel> {
    set r | r in rows && r.model == n :: r.channel
  }

  /** Asking for many names at once gives each of them what asking for it alone would. */
  method GetBoundChannelsByModelsMap(db: Database, names: seq<string>) returns (result: map<string, seq<BoundChannel>>)
    ensures forall n :: Lists(Lookup(result, n), if n in names then ChannelsOf(db, n) else {})
  {
    result := map[];
    if names == [] || db.Down? {
      return;
    }
    var rows := SelectDistinct(db.abilities, names);
    for i := 0 to |rows|
      invariant forall n :: Lists(Lookup(result, n), RowChannels(rows[..i], n))
    {
      var r := rows[i];
      assert rows[..i + 1] == rows[..i] + [r];
      assert r !in rows[..i];
      assert r.channel !in RowChannels(rows[..i], r.model);
      ghost var before := result;
      result := result[r.model := Lookup(result, r.model) + [r.channel]];
      forall n ensures Lists(Lookup(result, n), RowChannels(rows[..i + 1], n)) {
        if n == r.model {
          ListsAppend(Lookup(before, n), RowChannels(rows[..i], n), r.channel);
          assert RowChannels(rows[..i + 1], n) == RowChannels(rows[..i], n) + {r.channel};
        } else {
          assert RowChannels(rows[..i + 1], n) == RowChannels(rows[..i], n);
        }
      }
    }
    assert rows[..|rows|] == rows;
    forall n ensures RowChannels(rows, n) == if n in names then ChannelsOf(db, n) else {} {
      RowsAreChannels(db.abilities, names, rows, n);
    }
  }

  lemma RowsAreChannels(abilities: seq<Ability>, names: seq<string>, rows: seq<Row>, n: string)
    requires forall n, c :: Row(n, c) in rows <==> n in names && Ability(n, c, true) in abilities
    ensures RowChannels(rows, n) == if n in names then ChannelsOf(Up(abilities), n) else {}
  {
    forall c ensures c in RowChannels(rows, n) <==> n in names && c in ChannelsOf(Up(abilities), n) {
      assert c in RowChannels(rows, n) <==> Row(n, c) in rows;
      assert c in ChannelsOf(Up(abilities), n) <==> Ability(n, c, true) in abilities;
    }
  }

  // ---------------------------------------------------------------- splitting the list

  predicate IsExact(s: Slot) { s.Rec? && s.model.rule == EXACT }
  predicate IsRule(s: Slot) { s.Rec? && s.model.rule != EXACT }

  predicate PositionsOf(models: seq<Slot>, name: string, indices: seq<nat>) {
    && Ascending(indices)
    && forall i <- indices :: i < |models| && IsExact(models[i]) && models[i].model.name == name
  }

  lemma AscendingAppend(xs: seq<nat>, n: nat)
    requires Ascending(xs) && forall x <- xs :: x < n
    ensures Ascending(xs + [n])
  {
    forall i | 0 <= i < |xs| ensures xs[i] < n { assert xs[i] in xs; }
  }

  /** Each exact name with the positions that carry it. */
  ghost predicate ExactIndex(models: seq<Slot>, index: map<string, seq<nat>>) {
    && (forall n <- index :: PositionsOf(models, n, index[n]))
    && (forall i :: 0 <= i < |models| && IsExact(models[i]) ==>
          models[i].model.name in index && i in index[models[i].model.name])
  }

  ghost predicate RuleIndex(models: seq<Slot>, indices: seq<nat>) {
    && Ascending(indices)
    && (forall i <- indices :: i < |models| && IsRule(models[i]))
    && (forall i :: 0 <= i < |models| && IsRule(models[i]) ==> i in indices)
  }

  lemma RuleIndexKept(models: seq<Slot>, models': seq<Slot>, indices: seq<nat>)
    requires RuleIndex(models, indices) && |models| == |models'|
    requires forall i :: 0 <= i < |models| ==> IsRule(models[i]) == IsRule(models'[i])
    ensures RuleIndex(models', indices)
  {
  }

  method SplitModels(models: seq<Slot>) returns (names: seq<string>, exact: map<string, seq<nat>>, rules: seq<nat>)
    ensures ExactIndex(models, exact) && RuleIndex(models, rules)
    ensures forall n <- exact :: n in names
  {
    names, exact, rules := [], map[], [];
    for i := 0 to |models|
      invariant ExactIndex(models[..i], exact) && RuleIndex(models[..i], rules)
      invariant forall n <- exact :: n in names
    {
      ghost var before := models[..i];
      assert models[..i + 1] == before + [models[i]];
      if models[i].Nil? {
        continue;
      }
      var m := models[i].model;
      if m.rule == EXACT {
        names := names + [m.name];
        AscendingAppend(Lookup(exact, m.name), i);
        exact := exact[m.name := Lookup(exact, m.name) + [i]];
      } else {
        AscendingAppend(rules, i);
        rules := rules + [i];
      }
    }
    assert models[..|models|] == models;
  }

  // ---------------------------------------------------------------- one pass over the price list

  /** The four maps keyed by position. */
  datatype Collected = Collected(
    names: map<nat, seq<string>>, endpoints: map<nat, set<string>>, groups: map<nat, set<string>>,
    quotaTypes: map<nat, set<int>>)

  /** What the maps hold for position `idx` is what model `m` collects from the prices `ps`. */
  predicate Accumulated(c: Collected, idx: nat, m: Model, ps: seq<Pricing>) {
    if MatchedNames(ps, m) == [] then
      idx !in c.names && idx !in c.endpoints && idx !in c.groups && idx !in c.quotaTypes
    else
      && idx in c.names && c.names[idx] == MatchedNames(ps, m)
      && idx in c.endpoints && c.endpoints[idx] == EndpointUnion(ps, m)
      && idx in c.groups && c.groups[idx] == GroupUnion(ps, m)
      && idx in c.quotaTypes && c.quotaTypes[idx] == QuotaTypes(ps, m)
  }

  function Get<T>(m: map<nat, set<T>>, idx: nat): set<T> {
    if idx in m then m[idx] else {}
  }

  function Added(c: Collected, idx: nat, p: Pricing): Collected {
    Collected(
      c.names[idx := (if idx in c.names then c.names[idx] else []) + [p.name]],
      c.endpoints[idx := Get(c.endpoints, idx) + Elements(p.endpoints)],
      c.groups[idx := Get(c.groups, idx) + Elements(p.groups)],
      c.quotaTypes[idx := Get(c.quotaTypes, idx) + {p.quotaType}])
  }

  lemma NoMatchNoUnion(ps: seq<Pricing>, m: Model)
    requires MatchedNames(ps, m) == []
    ensures EndpointUnion(ps, m) == {} && GroupUnion(ps, m) == {} && QuotaTypes(ps, m) == {}
  {
    forall p | p in ps ensures !Matches(m, p.name) {
      MatchedNamesMember(ps, m, p.name);
    }
  }

  lemma OneMorePrice(ps: seq<Pricing>, p: Pricing, m: Model)
    ensures MatchedNames(ps + [p], m) == MatchedNames(ps, m) + if Matches(m, p.name) then [p.name] else []
    ensures EndpointUnion(ps + [p], m) == EndpointUnion(ps, m) + if Matches(m, p.name) then Elements(p.endpoints)
            else {}
    ensures GroupUnion(ps + [p], m) == GroupUnion(ps, m) + if Matches(m, p.name) then Elements(p.groups) else {}
    ensures QuotaTypes(ps + [p], m) == QuotaTypes(ps, m) + if Matches(m, p.name) then {p.quotaType} else {}
  {
    assert (ps + [p])[..|ps|] == ps;
  }

  lemma AccumulatedStep(c: Collected, idx: nat, m: Model, ps: seq<Pricing>, p: Pricing)
    requires Accumulated(c, idx, m, ps)
    ensures Accumulated(if Matches(m, p.name) then Added(c, idx, p) else c, idx, m, ps + [p])
  {
    OneMorePrice(ps, p, m);
    if MatchedNames(ps, m) == [] {
      NoMatchNoUnion(ps, m);
    }
  }

  method AddMatch(c: Collected, idx: nat, p: Pricing) returns (c': Collected)
    ensures c' == Added(c, idx, p)
  {
    var names := c.names[idx := (if idx in c.names then c.names[idx] else []) + [p.name]];
    var es := AddAll(Get(c.endpoints, idx), p.endpoints);
    var gs := AddAll(Get(c.groups, idx), p.groups);
    c' := Collected(names, c.endpoints[idx := es], c.groups[idx := gs],
                    c.quotaTypes[idx := Get(c.quotaTypes, idx) + {p.quotaType}]);
  }

  /** The inner loop: one price offered to every rule model. */
  method CollectOne(models: seq<Slot>, rules: seq<nat>, before: Collected, ghost ps: seq<Pricing>, p: Pricing)
    returns (c: Collected)
    requires RuleIndex(models, rules)
    requires forall idx <- rules :: Accumulated(before, idx, models[idx].model, ps)
    requires forall idx <- before.names :: idx in rules
    ensures forall idx <- rules :: Accumulated(c, idx, models[idx].model, ps + [p])
    ensures forall idx <- c.names :: idx in rules
  {
    hide Accumulated, Matches;
    c := before;
    assert forall a :: 0 <= a < |rules| ==> rules[a] in rules;
    for j := 0 to |rules|
      invariant forall a :: 0 <= a < j ==> Accumulated(c, rules[a], models[rules[a]].model, ps + [p])
      invariant forall a :: j <= a < |rules| ==> Accumulated(c, rules[a], models[rules[a]].model, ps)
      invariant forall idx <- c.names :: idx in rules
    {
      var idx := rules[j];
      assert idx in rules;
      var m := models[idx].model;
      AccumulatedStep(c, idx, m, ps, p);
      var matched := Matches(m, p.name);
      if !matched {
        continue;
      }
      forall a | 0 <= a < |rules| && a != j
        ensures forall qs | Accumulated(c, rules[a], models[rules[a]].model, qs) ::
                  Accumulated(Added(c, idx, p), rules[a], models[rules[a]].model, qs)
      {
        forall qs | Accumulated(c, rules[a], models[rules[a]].model, qs)
          ensures Accumulated(Added(c, idx, p), rules[a], models[rules[a]].model, qs)
        {
          AccumulatedElsewhere(c, idx, p, rules[a], models[rules[a]].model, qs);
        }
      }
      c := AddMatch(c, idx, p);
    }
  }

  lemma AccumulatedElsewhere(c: Collected, idx: nat, p: Pricing, other: nat, m: Model, ps: seq<Pricing>)
    requires Accumulated(c, other, m, ps) && other != idx
    ensures Accumulated(Added(c, idx, p), other, m, ps)
  {
  }

  method CollectMatches(models: seq<Slot>, rules: seq<nat>, pricings: seq<Pricing>) returns (c: Collected)
    requires RuleIndex(models, rules)
    ensures forall idx <- rules :: Accumulated(c, idx, models[idx].model, pricings)
    ensures forall idx <- c.names :: idx in rules
  {
    c := Collected(map[], map[], map[], map[]);
    for k := 0 to |pricings|
      invariant forall idx <- rules :: Accumulated(c, idx, models[idx].model, pricings[..k])
      invariant forall idx <- c.names :: idx in rules
    {
      var p := pricings[k];
      assert pricings[..k + 1] == pricings[..k] + [p];
      c := CollectOne(models, rules, c, pricings[..k], p);
    }
    assert pricings[..|pricings|] == pricings;
  }

  method AllMatched(names: map<nat, seq<string>>) returns (all: seq<string>)
    ensures forall idx <- names :: forall n <- names[idx] :: n in all
    ensures forall n <- all :: exists idx <- names :: n in names[idx]
    ensures forall i, j :: 0 <= i < j < |all| ==> all[i] != all[j]
  {
    var found: set<string> := {};
    var todo := names.Keys;
    while todo != {}
      invariant todo <= names.Keys
      invariant forall idx <- names :: idx !in todo ==> forall n <- names[idx] :: n in found
      invariant forall n <- found :: exists idx <- names :: n in names[idx]
      decreases todo
    {
      var idx :| idx in todo;
      var more := AddAll(found, names[idx]);
      found := more;
      todo := todo - {idx};
    }
    all := ToList(found);
  }

  // ---------------------------------------------------------------- writing back

  /** The keyed set of channels holds exactly `cs`. */
  predicate Keyed(byKey: map<string, BoundChannel>, cs: set<BoundChannel>) {
    && (forall k <- byKey :: Key(byKey[k]) == k && byKey[k] in cs)
    && (forall c <- cs :: Key(c) in byKey && byKey[Key(c)] == c)
  }

  lemma KeyedAdd(byKey: map<string, BoundChannel>, cs: set<BoundChannel>, c: BoundChannel)
    requires Keyed(byKey, cs)
    ensures Keyed(byKey[Key(c) := c], cs + {c})
  {
    hide Key;
    forall d | d in cs && Key(d) == Key(c) ensures d == c {
      KeyInjective(c, d);
    }
  }

  function Found(names: seq<string>, byModel: map<string, seq<BoundChannel>>): set<BoundChannel> {
    set n, c | n in names && c in Lookup(byModel, n) :: c
  }

  lemma FoundStep(names: seq<string>, i: nat, byModel: map<string, seq<BoundChannel>>)
    requires i < |names|
    ensures Found(names[..i + 1], byModel) == Found(names[..i], byModel) + Elements(Lookup(byModel, names[i]))
  {
    assert names[..i + 1] == names[..i] + [names[i]];
  }

  lemma ElementsStep(chs: seq<BoundChannel>, j: nat)
    requires j < |chs|
    ensures Elements(chs[..j + 1]) == Elements(chs[..j]) + {chs[j]}
  {
    assert chs[..j + 1] == chs[..j] + [chs[j]];
  }

  method UnionChannels(names: seq<string>, byModel: map<string, seq<BoundChannel>>)
    returns (byKey: map<string, BoundChannel>)
    ensures Keyed(byKey, Found(names, byModel))
  {
    byKey := map[];
    assert Keyed(byKey, Found(names[..0], byModel));
    hide Key, Keyed, Found;
    for i := 0 to |names|
      invariant Keyed(byKey, Found(names[..i], byModel))
    {
      var chs := Lookup(byModel, names[i]);
      ghost var before := Found(names[..i], byModel);
      assert before + Elements(chs[..0]) == before;
      for j := 0 to |chs|
        invariant Keyed(byKey, before + Elements(chs[..j]))
      {
        KeyedAdd(byKey, before + Elements(chs[..j]), chs[j]);
        ElementsStep(chs, j);
        assert before + Elements(chs[..j]) + {chs[j]} == before + Elements(chs[..j + 1]);
        byKey := byKey[Key(chs[j]) := chs[j]];
      }
      assert chs[..|chs|] == chs;
      FoundStep(names, i, byModel);
    }
    assert names[..|names|] == names;
  }

  method ChannelList(byKey: map<string, BoundChannel>, ghost cs: set<BoundChannel>) returns (chs: seq<BoundChannel>)
    requires Keyed(byKey, cs)
    ensures Lists(chs, cs)
  {
    hide Key;
    var keys := ToList(byKey.Keys);
    chs := seq(|keys|, i requires 0 <= i < |keys| => byKey[keys[i]]);
    forall c | c in cs ensures c in chs {
      var i :| 0 <= i < |keys| && keys[i] == Key(c);
      assert chs[i] == c;
    }
    forall i, j | 0 <= i < j < |chs| ensures chs[i] != chs[j] {
      assert Key(chs[i]) == keys[i] && Key(chs[j]) == keys[j];
    }
  }

  method QuotaList(types: set<int>) returns (xs: seq<int>)
    ensures Ascending(xs) && Lists(xs, types)
  {
    var arr := ToList(types);
    xs := SortInts(arr);
    assert forall x :: x in xs <==> x in types;
  }

  method RuleChannels(db: Database, names: seq<string>, byModel: map<string, seq<BoundChannel>>,
                      present: seq<BoundChannel>)
    returns (chs: seq<BoundChannel>)
    requires forall n <- names :: Lists(Lookup(byModel, n), ChannelsOf(db, n))
    ensures if ChannelUnion(db, names) == {} then chs == present else Lists(chs, ChannelUnion(db, names))
  {
    hide ChannelsOf, Key;
    var byKey := UnionChannels(names, byModel);
    ghost var cs := ChannelUnion(db, names);
    assert cs == Found(names, byModel);
    assert byKey == map[] ==> cs == {};
    assert forall k <- byKey :: byKey[k] in cs;
    chs := present;
    if |byKey| > 0 {
      chs := ChannelList(byKey, cs);
    }
  }

  method EnrichRule(w: World, m: Model, idx: nat, c: Collected, byModel: map<string, seq<BoundChannel>>)
    returns (m': Model)
    requires Accumulated(c, idx, m, w.pricings)
    requires forall n <- MatchedNames(w.pricings, m) :: Lists(Lookup(byModel, n), ChannelsOf(w.ruleDb, n))
    ensures RuleEnriched(w, m, m')
  {
    hide Matches, EndpointUnion, GroupUnion, QuotaTypes, ChannelsOf, ChannelUnion, Lists, Ascending;
    m' := m;
    if idx in c.endpoints && m'.endpoints == Blank {
      var eps := ToList(c.endpoints[idx]);
      m' := m'.(endpoints := Marshalled(eps));
    }
    if idx in c.groups {
      var groups := ToList(c.groups[idx]);
      m' := m'.(groups := groups);
    }
    if idx in c.quotaTypes {
      var arr := QuotaList(c.quotaTypes[idx]);
      m' := m'.(quotaTypes := arr);
    }
    var names := if idx in c.names then c.names[idx] else [];
    var chs := RuleChannels(w.ruleDb, names, byModel, m'.channels);
    m' := m'.(channels := chs);
    m' := m'.(matched := names, matchedCount := |names|);
  }

  method EnrichExact(w: World, m: Model, chs: seq<BoundChannel>) returns (m': Model)
    requires Lists(chs, ChannelsOf(w.exactDb, m.name))
    ensures ExactEnriched(w, m, m')
  {
    m' := m;
    if m'.endpoints == Blank {
      m' := m'.(endpoints := Marshalled(w.endpointsOf(m'.name)));
    }
    m' := m'.(channels := chs);
    m' := m'.(groups := w.groupsOf(m'.name));
    m' := m'.(quotaTypes := w.quotaTypesOf(m'.name));
  }

  lemma EnrichedStaysExact(w: World, s: Slot, s': Slot)
    requires IsExact(s) && Enriched(w, s, s')
    ensures IsExact(s')
  {
  }

  method FillExact(models: array<Slot>, w: World, exact: map<string, seq<nat>>, byModel: map<string, seq<BoundChannel>>)
    requires ExactIndex(models[..], exact)
    requires forall n <- exact :: Lists(Lookup(byModel, n), ChannelsOf(w.exactDb, n))
    modifies models
    ensures forall i :: 0 <= i < models.Length ==>
              if IsExact(old(models[i])) then Enriched(w, old(models[i]), models[i]) else models[i] == old(models[i])
  {
    hide ChannelsOf, Lists;
    var todo := exact.Keys;
    while todo != {}
      invariant todo <= exact.Keys
      invariant forall i :: 0 <= i < models.Length ==>
                  if IsExact(old(models[i])) && old(models[i]).model.name !in todo
                  then Enriched(w, old(models[i]), models[i]) else models[i] == old(models[i])
      decreases todo
    {
      var name :| name in todo;
      var indices := exact[name];
      for j := 0 to |indices|
        invariant forall i :: 0 <= i < models.Length ==>
                    if IsExact(old(models[i])) && (old(models[i]).model.name !in todo || i in indices[..j])
                    then Enriched(w, old(models[i]), models[i]) else models[i] == old(models[i])
      {
        var idx := indices[j];
        assert PositionsOf(old(models[..]), name, indices) && idx in indices;
        assert idx !in indices[..j];
        assert indices[..j + 1] == indices[..j] + [idx];
        var m := EnrichExact(w, models[idx].model, Lookup(byModel, name));
        models[idx] := Rec(m);
      }
      assert indices[..|indices|] == indices;
      todo := todo - {name};
    }
  }

  method FillRules(models: array<Slot>, w: World, rules: seq<nat>, c: Collected, byModel: map<string,
                   seq<BoundChannel>>)
    requires RuleIndex(models[..], rules)
    requires forall idx <- rules :: Accumulated(c, idx, models[idx].model, w.pricings)
    requires forall idx <- rules :: forall n <- MatchedNames(w.pricings, models[idx].model) ::
               Lists(Lookup(byModel, n), ChannelsOf(w.ruleDb, n))
    modifies models
    ensures forall i :: 0 <= i < models.Length ==>
              if IsRule(old(models[i])) then Enriched(w, old(models[i]), models[i]) else models[i] == old(models[i])
  {
    hide ChannelsOf, Lists, Accumulated, MatchedNames, RuleEnriched;
    for j := 0 to |rules|
      invariant forall i :: 0 <= i < models.Length ==>
                  if i in rules[..j] then Enriched(w, old(models[i]), models[i]) else models[i] == old(models[i])
    {
      var idx := rules[j];
      assert idx in rules;
      assert idx !in rules[..j];
      assert rules[..j + 1] == rules[..j] + [idx];
      assert models[idx] == old(models[idx]);
      var m := EnrichRule(w, models[idx].model, idx, c, byModel);
      models[idx] := Rec(m);
    }
    assert rules[..|rules|] == rules;
  }

  /** Every record of the batch comes out as its own lookup would leave it; nil entries stay. */
  method EnrichModels(models: array<Slot>, w: World)
    modifies models
    ensures forall i :: 0 <= i < models.Length ==> Enriched(w, old(models[i]), models[i])
  {
    hide Matches, EndpointUnion, GroupUnion, QuotaTypes, ChannelsOf, RuleEnriched, ExactEnriched, MatchedNames, Lists;
    if models.Length == 0 {
      return;
    }
    var exactNames, exact, rules := SplitModels(models[..]);
    var byModel := GetBoundChannelsByModelsMap(w.exactDb, exactNames);
    FillExact(models, w, exact, byModel);
    assert RuleIndex(models[..], rules) by {
      forall i | 0 <= i < models.Length ensures IsRule(old(models[i])) == IsRule(models[i]) {
        if IsExact(old(models[i])) {
          EnrichedStaysExact(w, old(models[i]), models[i]);
        }
      }
      RuleIndexKept(old(models[..]), models[..], rules);
    }
    if |rules| == 0 {
      return;
    }
    var c := CollectMatches(models[..], rules, w.pricings);
    var all := AllMatched(c.names);
    var matchedByModel := GetBoundChannelsByModelsMap(w.ruleDb, all);
    forall idx | idx in rules
      ensures forall n <- MatchedNames(w.pricings, models[idx].model) ::
                Lists(Lookup(matchedByModel, n), ChannelsOf(w.ruleDb, n))
    {
      assert Accumulated(c, idx, models[idx].model, w.pricings);
    }
    FillRules(models, w, rules, c, matchedByModel);
  }
}
