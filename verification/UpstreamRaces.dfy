/**
 The same routines as they really run: a check or an apply loads the channel row, works on its copy
 (a check fetches the upstream list meanwhile), and at the end saves the whole settings column and,
 if it changed them, the models.  Nothing keeps another one from saving in between.
 */
module UpstreamRaces {
  import opened ModelNames
  import opened UpstreamSync

  /** The row in the database and the copies loaded and not yet saved. */
  datatype World = World(row: Channel, copies: seq<Channel>)

  datatype Step = Load | Save(k: nat, e: Event) | Abandon(k: nat)

  /** The check is not due yet and saves nothing. */
  predicate Skips(c: Channel, e: Event) {
    e.Checked? && !e.force && c.lastCheck > 0 && e.at - c.lastCheck < e.env.minInterval
  }

  /** Whether the models column is saved as well. */
  predicate Changes(c: Channel, e: Event, matches: Regex) {
    match e
    case Checked(env, upstream, _, allowAuto, _) =>
      !Skips(c, e) && upstream.Some? && allowAuto && env.autoSync &&
      var add := PendingAdd(GetModels(c.models), upstream.value, c.ignored, env.mapping, matches);
      add != [] && |Merge(Local(c), add)| > |Local(c)|
    case Applied(addIn, _, removeIn, _) =>
      var add := Intersect(addIn, Normalize(c.detected));
      Selected(Local(c), add, Subtract(Intersect(removeIn, Normalize(c.removed)), add)) != Local(c)
  }

  /** `updateChannelUpstreamModelSettings`: the row after saving what became of copy `c`. */
  function Saved(row: Channel, c: Channel, e: Event, matches: Regex): Channel {
    if Skips(c, e) then row
    else
      var next := Next(c, e, matches);
      next.(models := if Changes(c, e, matches) then next.models else row.models)
  }

  function Without(copies: seq<Channel>, k: nat): seq<Channel>
    requires k < |copies|
  {
    copies[..k] + copies[k + 1..]
  }

  function Moved(w: World, s: Step, matches: Regex): World {
    match s
    case Load => w.(copies := w.copies + [w.row])
    case Save(k, e) =>
      if k >= |w.copies| then w else World(Saved(w.row, w.copies[k], e, matches), Without(w.copies, k))
    case Abandon(k) => if k >= |w.copies| then w else w.(copies := Without(w.copies, k))
  }

  function Reached(w: World, ss: seq<Step>, matches: Regex): World {
    if ss == [] then w else Moved(Reached(w, ss[..|ss| - 1], matches), ss[|ss| - 1], matches)
  }

  predicate CleanEvent(e: Event) {
    e.Checked? ==> CleanUpstream(e.upstream)
  }

  ghost predicate CleanSteps(ss: seq<Step>) {
    forall i :: 0 <= i < |ss| && ss[i].Save? ==> CleanEvent(ss[i].e)
  }

  // ---------------------------------------------------------------- saves that come in time

  /** Saving a copy that still is the row is the atomic step. */
  lemma SavedFresh(row: Channel, e: Event, matches: Regex)
    ensures Saved(row, row, e, matches) == Next(row, e, matches)
  {
  }

  /** What a save does to the row: nothing if the check was not due; otherwise all settings become those the
      copy led to, and the models do so only if the copy's own models changed. */
  lemma SaveLaw(row: Channel, c: Channel, e: Event, matches: Regex)
    requires Sound(c) && CleanEvent(e)
    ensures var saved, next := Saved(row, c, e, matches), Next(c, e, matches);
      if e.Checked? && !e.force && c.lastCheck > 0 && e.at - c.lastCheck < e.env.minInterval then saved == row
      else saved == Channel(if Local(next) != Local(c) then next.models else row.models,
                            next.ignored, next.detected, next.removed, next.lastCheck)
  {
    ChangesLocal(c, e, matches);
    hide Next, Changes, Local;
  }

  lemma ChangesLocal(c: Channel, e: Event, matches: Regex)
    requires Sound(c) && CleanEvent(e)
    ensures Changes(c, e, matches) <==> Local(Next(c, e, matches)) != Local(c)
  {
    hide Normalize, Merge, Join, PendingAdd, PendingRemove, Normal, AllCommaFree, GetModels, Elems, Selected, Apply;
    match e
    case Checked(env, upstream, force, allowAuto, at) =>
      if upstream.Some? {
        var add := PendingAdd(GetModels(c.models), upstream.value, c.ignored, env.mapping, matches);
        PendingCommaFree(c, env, upstream.value, matches);
        MergedLocal(c, add);
        if !Skips(c, e) && allowAuto && env.autoSync && add != [] {
          StoredGrown(c, add, Next(c, e, matches));
        }
      }
    case Applied(addIn, ignoreIn, removeIn, at) =>
      AppliedLocal(c, addIn, ignoreIn, removeIn, at);
  }

  /** A save is of a copy that still is the row. */
  predicate Fresh(w: World, s: Step) {
    s.Save? && s.k < |w.copies| ==> w.copies[s.k] == w.row
  }

  ghost predicate InTime(w: World, ss: seq<Step>, matches: Regex) {
    forall i :: 0 <= i < |ss| ==> Fresh(Reached(w, ss[..i], matches), ss[i])
  }

  /** What the saves of a run did, in order. */
  function Effects(w: World, ss: seq<Step>, matches: Regex): seq<Event> {
    if ss == [] then []
    else
      var front, s := ss[..|ss| - 1], ss[|ss| - 1];
      Effects(w, front, matches) + if s.Save? && s.k < |Reached(w, front, matches).copies| then [s.e] else []
  }

  lemma AfterMore(c: Channel, es: seq<Event>, e: Event, matches: Regex)
    ensures After(c, es + [e], matches) == Next(After(c, es, matches), e, matches)
  {
    assert (es + [e])[..|es|] == es;
  }

  lemma InTimeFront(w: World, ss: seq<Step>, matches: Regex)
    requires ss != [] && InTime(w, ss, matches)
    ensures InTime(w, ss[..|ss| - 1], matches)
  {
    var front := ss[..|ss| - 1];
    hide Reached, Fresh;
    forall i | 0 <= i < |front| ensures Fresh(Reached(w, front[..i], matches), front[i]) {
      assert front[i] == ss[i] && front[..i] == ss[..i];
      assert Fresh(Reached(w, ss[..i], matches), ss[i]);
    }
  }

  lemma MovedInTime(w: World, s: Step, matches: Regex)
    requires Fresh(w, s)
    ensures Moved(w, s, matches).row == if s.Save? && s.k < |w.copies| then Next(w.row, s.e, matches) else w.row
  {
    if s.Save? {
      SavedFresh(w.row, s.e, matches);
      hide Saved, Next;
    }
  }

  lemma CleanMore(es: seq<Event>, e: Event)
    requires Clean(es) && CleanEvent(e)
    ensures Clean(es + [e])
  {
  }

  /** A run whose saves all come in time does to the row what its checks and applies do one at a time. */
  lemma {:induction false} InTimeIsAtomic(w: World, ss: seq<Step>, matches: Regex)
    requires InTime(w, ss, matches) && CleanSteps(ss)
    ensures Reached(w, ss, matches).row == After(w.row, Effects(w, ss, matches), matches)
    ensures Clean(Effects(w, ss, matches))
  {
    if ss != [] {
      var last := |ss| - 1;
      var front, s := ss[..last], ss[last];
      InTimeFront(w, ss, matches);
      InTimeIsAtomic(w, front, matches);
      var u, es := Reached(w, front, matches), Effects(w, front, matches);
      assert Fresh(u, s) && Reached(w, ss, matches) == Moved(u, s, matches);
      MovedInTime(u, s, matches);
      if s.Save? && s.k < |u.copies| {
        AfterMore(w.row, es, s.e, matches);
        CleanMore(es, s.e);
      } else {
        assert Effects(w, ss, matches) == es;
      }
      hide Reached, Moved, After, Next, Clean, CleanEvent, InTime;
    }
  }

  /** So the invariant holds over every interleaving whose saves all come in time. */
  lemma InTimeKeepsInv(w: World, ss: seq<Step>, matches: Regex)
    requires Inv(w.row) && Normal(w.row.ignored) && InTime(w, ss, matches) && CleanSteps(ss)
    ensures Inv(Reached(w, ss, matches).row) && Normal(Reached(w, ss, matches).row.ignored)
  {
    InTimeIsAtomic(w, ss, matches);
    RunKeepsInv(w.row, Effects(w, ss, matches), matches);
  }

  /** And a model once ignored that hides itself stays away over all of them. */
  lemma InTimeKeepsBan(w: World, ss: seq<Step>, matches: Regex, m: string)
    requires Inv(w.row) && Normal(w.row.ignored) && InTime(w, ss, matches) && CleanSteps(ss)
    requires Banned(w.row, m) && HiddenBy(m, m, matches)
    ensures Banned(Reached(w, ss, matches).row, m)
  {
    InTimeIsAtomic(w, ss, matches);
    RunKeepsBan(w.row, Effects(w, ss, matches), matches, m);
  }

  // ---------------------------------------------------------------- what holds of every interleaving

  /** The settings of a row or copy by themselves: duplicate-free lists of storable names. */
  ghost predicate Sound(c: Channel) {
    Normal(c.detected) && Normal(c.removed) && AllCommaFree(c.detected)
  }

  ghost predicate AllSound(w: World) {
    Sound(w.row) && forall k :: 0 <= k < |w.copies| ==> Sound(w.copies[k])
  }

  lemma NextSound(c: Channel, e: Event, matches: Regex)
    requires Sound(c) && CleanEvent(e)
    ensures Sound(Next(c, e, matches))
  {
    match e
    case Checked(env, upstream, force, allowAuto, at) =>
      CheckElems(c, env, upstream, matches, force, allowAuto, at);
      if upstream.Some? {
        PendingAddMember(GetModels(c.models), upstream.value, c.ignored, env.mapping, matches);
        PendingRemoveMember(GetModels(c.models), upstream.value, env.mapping);
        CommaFreeElems(PendingAdd(GetModels(c.models), upstream.value, c.ignored, env.mapping, matches));
      }
    case Applied(add, ignore, remove, at) =>
      ApplyElems(c, add, ignore, remove, at);
      CommaFreeElems(c.detected);
      CommaFreeElems(Next(c, e, matches).detected);
  }

  lemma SavedSound(row: Channel, c: Channel, e: Event, matches: Regex)
    requires Sound(row) && Sound(c) && CleanEvent(e)
    ensures Sound(Saved(row, c, e, matches))
  {
    NextSound(c, e, matches);
  }

  lemma MovedSound(w: World, s: Step, matches: Regex)
    requires AllSound(w) && (s.Save? ==> CleanEvent(s.e))
    ensures AllSound(Moved(w, s, matches))
  {
    hide Saved, Sound, CleanEvent;
    if s.Save? && s.k < |w.copies| {
      SavedSound(w.row, w.copies[s.k], s.e, matches);
    }
  }

  /** Even so, every list stays duplicate-free on every interleaving. */
  lemma {:induction false} ReachedSound(w: World, ss: seq<Step>, matches: Regex)
    requires AllSound(w) && CleanSteps(ss)
    ensures AllSound(Reached(w, ss, matches))
  {
    if ss != [] {
      ReachedSound(w, ss[..|ss| - 1], matches);
      hide Moved, AllSound, CleanEvent;
      MovedSound(Reached(w, ss[..|ss| - 1], matches), ss[|ss| - 1], matches);
    }
  }

  // ---------------------------------------------------------------- which settings keep a model away

  /** These rules are not pending, hide `m`, and each of them that could be offered as a model is hidden by
      one of them in turn: they never become models, and so are never dropped. */
  ghost predicate Guards(guards: set<string>, rules: set<string>, detected: set<string>, m: string, matches: Regex) {
    && guards <= rules && guards !! detected && Hidden(guards, m, matches)
    && forall g :: g in guards && CommaFree(g) ==> Hidden(guards, g, matches)
  }

  ghost predicate Guarded(rules: set<string>, detected: set<string>, m: string, matches: Regex) {
    exists guards: set<string> :: Guards(guards, rules, detected, m, matches)
  }

  function Rules(c: Channel): set<string> {
    Elems(Normalize(c.ignored))
  }

  /** These settings neither offer `m` nor ever will. */
  ghost predicate Shut(c: Channel, m: string, matches: Regex) {
    Guarded(Rules(c), Elems(c.detected), m, matches) && m !in Elems(c.detected)
  }

  ghost predicate Away(c: Channel, m: string, matches: Regex) {
    Shut(c, m, matches) && m !in Elems(Local(c))
  }

  /** A model ignored by name that hides itself is kept away by its own rule. */
  lemma BannedIsAway(c: Channel, m: string, matches: Regex)
    requires Banned(c, m) && HiddenBy(m, m, matches)
    ensures Away(c, m, matches)
  {
    assert Hidden({m}, m, matches);
    assert Guards({m}, Rules(c), Elems(c.detected), m, matches);
  }

  /** A check offers nothing that the guards hide. */
  lemma CheckGuarded(c: Channel, e: Event, matches: Regex, guards: set<string>, x: string)
    requires e.Checked? && CleanEvent(e) && guards <= Rules(c) && x !in Elems(c.detected)
    requires CommaFree(x) ==> Hidden(guards, x, matches)
    ensures x !in Elems(Next(c, e, matches).detected)
    ensures x !in Elems(Local(c)) ==> x !in Elems(Local(Next(c, e, matches)))
    ensures Next(c, e, matches).ignored == c.ignored
  {
    CheckElems(c, e.env, e.upstream, matches, e.force, e.allowAuto, e.at);
    if e.upstream.Some? {
      PendingAddMember(GetModels(c.models), e.upstream.value, c.ignored, e.env.mapping, matches);
      if Hidden(guards, x, matches) {
        HiddenMonotone(guards, Rules(c), x, matches);
      }
    }
  }

  /** Settings that are shut stay shut, and add no `m` to the models. */
  lemma NextShut(c: Channel, e: Event, matches: Regex, m: string)
    requires Sound(c) && CleanEvent(e) && Shut(c, m, matches)
    ensures Shut(Next(c, e, matches), m, matches)
    ensures m !in Elems(Local(c)) ==> m !in Elems(Local(Next(c, e, matches)))
  {
    hide Next, CleanEvent, Hidden, Normal, AllCommaFree;
    var guards: set<string> :| Guards(guards, Rules(c), Elems(c.detected), m, matches);
    var c' := Next(c, e, matches);
    if e.Checked? {
      CheckGuarded(c, e, matches, guards, m);
      forall g | g in guards ensures g !in Elems(c'.detected) {
        CheckGuarded(c, e, matches, guards, g);
      }
      assert guards <= Rules(c');
    } else {
      AppliedShut(c, e, matches, guards, m);
    }
    assert Guards(guards, Rules(c'), Elems(c'.detected), m, matches);
  }

  lemma AppliedShut(c: Channel, e: Event, matches: Regex, guards: set<string>, m: string)
    requires Sound(c) && e.Applied? && guards <= Rules(c) && guards !! Elems(c.detected) && m !in Elems(c.detected)
    ensures var c' := Next(c, e, matches);
            && guards <= Rules(c') && Elems(c'.detected) <= Elems(c.detected)
            && (m !in Elems(Local(c)) ==> m !in Elems(Local(c')))
  {
    hide Apply;
    ApplyElems(c, e.add, e.ignore, e.remove, e.at);
    NormalizeNormalList(Apply(c, e.add, e.ignore, e.remove, e.at).ignored);
  }

  /** A copy that cannot bring `m` back: its settings are shut, and no save of its models contains `m`. */
  ghost predicate Harmless(c: Channel, m: string, matches: Regex) {
    && Shut(c, m, matches)
    && forall e :: CleanEvent(e) && Changes(c, e, matches) ==> m !in Elems(Local(Next(c, e, matches)))
  }

  lemma AwayIsHarmless(c: Channel, m: string, matches: Regex)
    requires Sound(c) && Away(c, m, matches)
    ensures Harmless(c, m, matches)
  {
    hide Shut, Next, Changes, CleanEvent, Sound;
    forall e | CleanEvent(e) && Changes(c, e, matches) ensures m !in Elems(Local(Next(c, e, matches))) {
      NextShut(c, e, matches, m);
    }
  }

  ghost predicate Safe(w: World, m: string, matches: Regex) {
    Away(w.row, m, matches) && forall k :: 0 <= k < |w.copies| ==> Harmless(w.copies[k], m, matches)
  }

  lemma SavedAway(row: Channel, c: Channel, e: Event, m: string, matches: Regex)
    requires Sound(c) && CleanEvent(e) && Away(row, m, matches) && Harmless(c, m, matches)
    ensures Away(Saved(row, c, e, matches), m, matches)
  {
    if !Skips(c, e) {
      NextShut(c, e, matches, m);
      SameLocal(Saved(row, c, e, matches), if Changes(c, e, matches) then Next(c, e, matches) else row);
      hide Next, Changes, Skips, Guarded;
    }
  }

  lemma MovedSafe(w: World, s: Step, m: string, matches: Regex)
    requires AllSound(w) && (s.Save? ==> CleanEvent(s.e)) && Safe(w, m, matches)
    ensures Safe(Moved(w, s, matches), m, matches)
  {
    hide Saved, Sound, CleanEvent, Away, Harmless;
    if s.Save? && s.k < |w.copies| {
      SavedAway(w.row, w.copies[s.k], s.e, m, matches);
    } else if s.Load? {
      AwayIsHarmless(w.row, m, matches);
    }
  }

  lemma {:induction false} ReachedSafe(w: World, ss: seq<Step>, m: string, matches: Regex)
    requires AllSound(w) && CleanSteps(ss) && Safe(w, m, matches)
    ensures Safe(Reached(w, ss, matches), m, matches)
  {
    if ss != [] {
      var front := ss[..|ss| - 1];
      ReachedSafe(w, front, m, matches);
      ReachedSound(w, front, matches);
      hide Moved, AllSound, CleanEvent, Safe;
      MovedSafe(Reached(w, front, matches), ss[|ss| - 1], m, matches);
    }
  }

  // ---------------------------------------------------------------- and how it comes back otherwise

  ghost predicate Back(c: Channel, m: string) {
    m in Elems(c.detected) || m in Elems(Local(c))
  }

  const PLAIN := Env(map[], false, 0)

  function Offer(names: seq<string>): Event {
    Checked(PLAIN, Some(names), true, false, 1)
  }

  /** A name that can be offered: trimmed, not blank, without a comma. */
  predicate Offerable(m: string) {
    Trim(m) == m && m != "" && CommaFree(m)
  }

  lemma {:induction false} AfterConcat(c: Channel, a: seq<Event>, b: seq<Event>, matches: Regex)
    ensures After(c, a + b, matches) == After(After(c, a, matches), b, matches)
    decreases |b|
  {
    hide *;
    if b == [] {
      assert a + b == a;
      NoEvents(After(c, a, matches), matches);
    } else {
      var front, e := b[..|b| - 1], b[|b| - 1];
      AfterConcat(c, a, front, matches);
      AfterMore(c, a + front, e, matches);
      AfterMore(After(c, a, matches), front, e, matches);
      assert a + b == (a + front) + [e];
      assert b == front + [e];
    }
  }

  lemma AfterOne(c: Channel, e: Event, matches: Regex)
    ensures After(c, [e], matches) == Next(c, e, matches)
  {
    AfterMore(c, [], e, matches);
    assert [] + [e] == [e];
  }

  /** Offering one name: it becomes the one pending addition unless it is there or hidden. */
  lemma OfferOne(c: Channel, g: string, matches: Regex)
    requires Offerable(g)
    ensures CleanEvent(Offer([g]))
    ensures var d := Next(c, Offer([g]), matches);
            && Sound(d) && d.models == c.models && d.ignored == c.ignored
            && Elems(d.detected) == if g in Elems(Local(c)) || Hidden(Rules(c), g, matches) then {} else {g}
  {
    assert Normal([g]);
    NormalizeNormalList([g]);
    hide Check, Trim, Local;
    CheckedSets(c, PLAIN, [g], matches, 1);
    CommaFreeElems(Next(c, Offer([g]), matches).detected);
  }

  /** Offering nothing: everything in the channel becomes removable. */
  lemma OfferNone(c: Channel, matches: Regex)
    ensures CleanEvent(Offer([]))
    ensures var d := Next(c, Offer([]), matches);
            && Sound(d) && d.models == c.models && d.ignored == c.ignored
            && Elems(d.detected) == {} && Elems(d.removed) == Elems(Local(c))
  {
    assert Normalize([]) == [];
    hide Check, Local;
    CheckedSets(c, PLAIN, [], matches, 1);
    CommaFreeElems(Next(c, Offer([]), matches).detected);
  }

  lemma Single(xs: seq<string>, g: string)
    requires Normal(xs) && g in Elems(xs)
    ensures Elems(Normalize([g])) == {g} && Elems(Normalize([])) == {}
  {
    assert Normal([g]) by {
      var i :| 0 <= i < |xs| && xs[i] == g;
      hide Trim;
    }
    NormalizeNormalList([g]);
  }

  /** Adding one pending name drops the rule of that name. */
  lemma AddOne(c: Channel, g: string, matches: Regex)
    requires Sound(c) && g in Elems(c.detected)
    ensures var a := Next(c, Applied([g], [], [], 1), matches);
            Sound(a) && Rules(a) == Rules(c) - {g} && Elems(a.detected) == Elems(c.detected) - {g}
  {
    var e := Applied([g], [], [], 1);
    Single(c.detected, g);
    NextSound(c, e, matches);
    ApplyElems(c, [g], [], [], 1);
    hide Apply, Check, Normalize, Elems, Sound, Normal, AllCommaFree, Local;
    NormalizeNormalList(Next(c, e, matches).ignored);
  }

  lemma RemoveOne(c: Channel, g: string, matches: Regex)
    requires Sound(c) && g in Elems(c.removed)
    ensures var a := Next(c, Applied([], [], [g], 1), matches);
            && Sound(a) && Rules(a) == Rules(c) && Elems(a.detected) == Elems(c.detected)
            && Elems(Local(a)) == Elems(Local(c)) - {g}
  {
    var e := Applied([], [], [g], 1);
    NextSound(c, e, matches);
    Single(c.removed, g);
    hide Apply, Check, Normalize, Elems, Normal, AllCommaFree, Local;
    OneRemoved(Elems(c.detected), Elems(c.removed), g);
    ApplyElems(c, [], [], [g], 1);
    hide Sound;
    NormalizeNormalList(Next(c, e, matches).ignored);
  }

  lemma OneRemoved(detected: set<string>, removed: set<string>, g: string)
    requires g in removed
    ensures {} * detected == {} && {g} * removed == {g} && {g} - {} == {g} && detected - {} - {} == detected
    ensures forall xs: set<string> :: (xs + {}) - {} == xs && xs + {} == xs
  {
  }

  lemma GuardedMore(rules: set<string>, detected: set<string>, rules': set<string>, detected': set<string>, m: string,
                    matches: Regex)
    requires Guarded(rules', detected', m, matches) && rules' <= rules && rules' * detected <= detected'
    ensures Guarded(rules, detected, m, matches)
  {
    var guards: set<string> :| Guards(guards, rules', detected', m, matches);
    assert Guards(guards, rules, detected, m, matches);
  }

  /** Drop an unhidden rule: clear its name from the channel, offer it, and add it. */
  lemma DropRule(c: Channel, g: string, matches: Regex) returns (es: seq<Event>)
    requires Sound(c) && Offerable(g) && g in Rules(c) && !Hidden(Rules(c), g, matches)
    ensures Clean(es) && Sound(After(c, es, matches)) && Rules(After(c, es, matches)) == Rules(c) - {g}
    ensures Elems(After(c, es, matches).detected) == {}
  {
    hide Hidden, Offerable, Rules, Sound, Next, After, Clean, CleanEvent;
    var first: seq<Event> := [];
    var c1 := c;
    assert After(c, first, matches) == c1 && Clean(first) by { NoEvents(c, matches); }
    if g in Elems(Local(c)) {
      OfferNone(c, matches);
      var d := Next(c, Offer([]), matches);
      RemoveOne(d, g, matches);
      SameLocal(c, d);
      c1 := Next(d, Applied([], [], [g], 1), matches);
      first := [Offer([]), Applied([], [], [g], 1)];
      TwoEvents(c, Offer([]), Applied([], [], [g], 1), matches);
      SameRules(c, d);
    }
    OfferOne(c1, g, matches);
    var d1 := Next(c1, Offer([g]), matches);
    SameRules(c1, d1);
    AddOne(d1, g, matches);
    var second := [Offer([g]), Applied([g], [], [], 1)];
    TwoEvents(c1, Offer([g]), Applied([g], [], [], 1), matches);
    es := first + second;
    AfterConcat(c, first, second, matches);
    CleanConcat(first, second);
  }

  lemma NoEvents(c: Channel, matches: Regex)
    ensures After(c, [], matches) == c && Clean([])
  {
  }

  lemma SameRules(c: Channel, d: Channel)
    requires c.ignored == d.ignored
    ensures Rules(c) == Rules(d)
  {
  }

  lemma TwoEvents(c: Channel, e: Event, f: Event, matches: Regex)
    requires CleanEvent(e) && f.Applied?
    ensures After(c, [e, f], matches) == Next(Next(c, e, matches), f, matches) && Clean([e, f])
  {
    AfterOne(c, e, matches);
    AfterMore(c, [e], f, matches);
    assert [e] + [f] == [e, f];
  }

  lemma CleanConcat(a: seq<Event>, b: seq<Event>)
    requires Clean(a) && Clean(b)
    ensures Clean(a + b)
  {
  }

  /** Where no guards are left, checks and applies one at a time can bring `m` back: drop the rules that hide
      it one after the other, then offer it. */
  lemma {:induction false} BringBack(c: Channel, m: string, matches: Regex) returns (es: seq<Event>)
    requires Sound(c) && Offerable(m) && !Guarded(Rules(c), Elems(c.detected), m, matches)
    ensures Clean(es) && Back(After(c, es, matches), m)
    decreases |Rules(c)|
  {
    hide Hidden, Offerable, Rules, Sound, Next, After, Clean, CleanEvent;
    if Back(c, m) {
      es := [];
      NoEvents(c, matches);
    } else if !Hidden(Rules(c), m, matches) {
      es := [Offer([m])];
      OfferOne(c, m, matches);
      AfterOne(c, Offer([m]), matches);
      CleanOne(Offer([m]));
    } else {
      var first, g := WeakRule(c, m, matches);
      var c1 := After(c, first, matches);
      assert |Rules(c1)| < |Rules(c)|;
      var rest := BringBack(c1, m, matches);
      es := first + rest;
      AfterConcat(c, first, rest, matches);
      CleanConcat(first, rest);
    }
  }

  lemma CleanOne(e: Event)
    requires CleanEvent(e)
    ensures Clean([e])
  {
  }

  /** One rule can be dropped: a pending one, or an unhidden one. */
  lemma WeakRule(c: Channel, m: string, matches: Regex) returns (es: seq<Event>, g: string)
    requires Sound(c) && Hidden(Rules(c), m, matches) && !Guarded(Rules(c), Elems(c.detected), m, matches)
    ensures Clean(es) && g in Rules(c) && Sound(After(c, es, matches)) && Rules(After(c, es, matches)) == Rules(c) - {g}
    ensures !Guarded(Rules(After(c, es, matches)), Elems(After(c, es, matches).detected), m, matches)
  {
    assert !Guards(Rules(c), Rules(c), Elems(c.detected), m, matches);
    hide Hidden, Offerable, Sound, Next, After, Clean, CleanEvent, Guarded;
    if g' :| g' in Rules(c) && g' in Elems(c.detected) {
      g := g';
      var e := Applied([g], [], [], 1);
      AddOne(c, g, matches);
      AfterOne(c, e, matches);
      es := [e];
      assert CleanEvent(e) by { AppliedClean(e); }
      CleanOne(e);
    } else {
      g :| g in Rules(c) && CommaFree(g) && !Hidden(Rules(c), g, matches);
      assert Offerable(g) by { RuleOfferable(c, g); }
      es := DropRule(c, g, matches);
    }
    var a := After(c, es, matches);
    if Guarded(Rules(a), Elems(a.detected), m, matches) {
      GuardedMore(Rules(c), Elems(c.detected), Rules(a), Elems(a.detected), m, matches);
    }
  }

  lemma AppliedClean(e: Event)
    requires e.Applied?
    ensures CleanEvent(e)
  {
  }

  lemma RuleOfferable(c: Channel, g: string)
    requires g in Rules(c) && CommaFree(g)
    ensures Offerable(g)
  {
    NormalizeNormal(c.ignored);
    hide Trim, Normalize;
    var rules := Normalize(c.ignored);
    var i :| 0 <= i < |rules| && rules[i] == g;
  }

  // ---------------------------------------------------------------- exactly when a model stays away

  lemma ReachedMore(w: World, ss: seq<Step>, s: Step, matches: Regex)
    ensures Reached(w, ss + [s], matches) == Moved(Reached(w, ss, matches), s, matches)
  {
    assert (ss + [s])[..|ss|] == ss;
  }

  lemma ReachedNothing(w: World, matches: Regex)
    ensures Reached(w, [], matches) == w && CleanSteps([])
  {
  }

  lemma CleanStep(ss: seq<Step>, s: Step)
    requires CleanSteps(ss) && (s.Save? ==> CleanEvent(s.e))
    ensures CleanSteps(ss + [s])
  {
    hide CleanEvent;
  }

  /** Loading and saving at once does to the row what the event does, and nothing to the other copies. */
  lemma LoadSave(w: World, e: Event, matches: Regex)
    ensures Moved(Moved(w, Load, matches), Save(|w.copies|, e), matches) == World(Next(w.row, e, matches), w.copies)
  {
    SavedFresh(w.row, e, matches);
    hide Saved, Next;
    assert (w.copies + [w.row])[..|w.copies|] == w.copies;
  }

  /** Any sequence of events can happen one at a time, whatever else is under way. */
  lemma {:induction false} Serially(w: World, ss: seq<Step>, es: seq<Event>, matches: Regex) returns (ss': seq<Step>)
    requires CleanSteps(ss) && Clean(es)
    ensures CleanSteps(ss')
    ensures var u := Reached(w, ss, matches);
            Reached(w, ss', matches) == World(After(u.row, es, matches), u.copies)
  {
    hide Reached, Moved, After, Next, CleanSteps;
    var u := Reached(w, ss, matches);
    if es == [] {
      ss' := ss;
      NoEvents(u.row, matches);
    } else {
      var front, e := es[..|es| - 1], es[|es| - 1];
      assert Clean(front) && CleanEvent(e);
      hide Clean, CleanEvent;
      var before := Serially(w, ss, front, matches);
      var v := Reached(w, before, matches);
      ss' := before + [Load] + [Save(|v.copies|, e)];
      ReachedMore(w, before, Load, matches);
      ReachedMore(w, before + [Load], Save(|v.copies|, e), matches);
      CleanStep(before, Load);
      CleanStep(before + [Load], Save(|v.copies|, e));
      LoadSave(v, e, matches);
      AfterMore(u.row, front, e, matches);
      assert front + [e] == es;
    }
  }

  /** On every interleaving `m` stays out of the channel and is never offered. */
  ghost predicate StaysAway(w: World, m: string, matches: Regex) {
    forall ss :: CleanSteps(ss) ==> !Back(Reached(w, ss, matches).row, m)
  }

  /** A run that brings `m` back from a row without guards. */
  lemma RowBringsBack(w: World, ss: seq<Step>, m: string, matches: Regex) returns (ss': seq<Step>)
    requires CleanSteps(ss) && Offerable(m) && Sound(Reached(w, ss, matches).row)
             && !Away(Reached(w, ss, matches).row, m, matches)
    ensures CleanSteps(ss') && Back(Reached(w, ss', matches).row, m)
  {
    hide Reached, CleanSteps, Offerable, Sound, Guarded, After, Clean;
    var row := Reached(w, ss, matches).row;
    if Back(row, m) {
      ss' := ss;
    } else {
      var es := BringBack(row, m, matches);
      ss' := Serially(w, ss, es, matches);
    }
  }

  const MISSED := Checked(PLAIN, None, true, false, 1)

  /** A failed fetch saves the settings of its copy all the same. */
  lemma MissedSave(row: Channel, c: Channel, matches: Regex)
    ensures var row' := Saved(row, c, MISSED, matches);
            && CleanEvent(MISSED) && row'.detected == c.detected && row'.removed == c.removed && Rules(row') == Rules(c)
  {
  }

  lemma CopyBringsBack(w: World, k: nat, m: string, matches: Regex) returns (ss: seq<Step>)
    requires AllSound(w) && Offerable(m) && k < |w.copies| && !Harmless(w.copies[k], m, matches)
    ensures CleanSteps(ss) && Back(Reached(w, ss, matches).row, m)
  {
    var c := w.copies[k];
    ReachedNothing(w, matches);
    if !Shut(c, m, matches) {
      MissedSave(w.row, c, matches);
      SavedSound(w.row, c, MISSED, matches);
      var first := [] + [Save(k, MISSED)];
      CleanStep([], Save(k, MISSED));
      ReachedMore(w, [], Save(k, MISSED), matches);
      assert Reached(w, first, matches).row == Saved(w.row, c, MISSED, matches);
      hide Reached, Saved, Sound, Guarded, CleanSteps, Offerable, Local, Rules;
      ss := RowBringsBack(w, first, m, matches);
    } else {
      hide Shut, CleanEvent, Next;
      var e :| CleanEvent(e) && Changes(c, e, matches) && m in Elems(Local(Next(c, e, matches)));
      assert !Skips(c, e);
      ss := [] + [Save(k, e)];
      CleanStep([], Save(k, e));
      ReachedMore(w, [], Save(k, e), matches);
      SameLocal(Saved(w.row, c, e, matches), Next(c, e, matches));
      hide Changes, Local;
      assert Reached(w, ss, matches).row == Saved(w.row, c, e, matches);
    }
  }

  /** Exactly when a model stays away on every interleaving: its row keeps it away, and no copy under way
      would bring it back. */
  lemma StaysAwayIff(w: World, m: string, matches: Regex)
    requires AllSound(w) && Offerable(m)
    ensures StaysAway(w, m, matches) <==> Safe(w, m, matches)
  {
    if Safe(w, m, matches) {
      hide Reached, CleanSteps;
      forall ss | CleanSteps(ss) ensures !Back(Reached(w, ss, matches).row, m) {
        ReachedSafe(w, ss, m, matches);
      }
    } else if !Away(w.row, m, matches) {
      ReachedNothing(w, matches);
      hide Reached, CleanSteps, Sound, Offerable, Away;
      var ss := RowBringsBack(w, [], m, matches);
      assert CleanSteps(ss) && Back(Reached(w, ss, matches).row, m);
    } else {
      hide Reached, CleanSteps, AllSound, Offerable, Away, Harmless;
      var k :| 0 <= k < |w.copies| && !Harmless(w.copies[k], m, matches);
      var ss := CopyBringsBack(w, k, m, matches);
      assert CleanSteps(ss) && Back(Reached(w, ss, matches).row, m);
    }
  }

  /** In particular, from a row where `m` is ignored and hides itself, it stays away if and only if every
      copy under way is harmless. */
  lemma BannedStaysIff(w: World, m: string, matches: Regex)
    requires AllSound(w) && Offerable(m) && Banned(w.row, m) && HiddenBy(m, m, matches)
    ensures StaysAway(w, m, matches) <==> forall k :: 0 <= k < |w.copies| ==> Harmless(w.copies[k], m, matches)
  {
    BannedIsAway(w.row, m, matches);
    StaysAwayIff(w, m, matches);
    hide Away, Harmless, StaysAway, AllSound;
  }

  // ---------------------------------------------------------------- two runs that go wrong

  /** The channel of both runs: nothing in it, `m` pending. */
  function Pending(m: string): World {
    World(Channel("", [], [m], [], 0), [])
  }

  function Late(m: string, apply: Event): seq<Step> {
    [Load, Load, Save(1, apply), Save(0, Offer([m]))]
  }

  lemma LateRun(m: string, apply: Event, matches: Regex)
    requires apply.Applied?
    ensures var c := Pending(m).row;
            Reached(Pending(m), Late(m, apply), matches) ==
            World(Saved(Saved(c, c, apply, matches), c, Offer([m]), matches), [])
  {
    var w, c, ss := Pending(m), Pending(m).row, Late(m, apply);
    ReachedNothing(w, matches);
    hide Reached, Saved;
    ReachedMore(w, [], Load, matches);
    ReachedMore(w, [Load], Load, matches);
    ReachedMore(w, [Load, Load], Save(1, apply), matches);
    ReachedMore(w, [Load, Load, Save(1, apply)], Save(0, Offer([m])), matches);
    assert [] + [Load] == [Load] && [Load] + [Load] == [Load, Load];
    assert [Load, Load] + [Save(1, apply)] == [Load, Load, Save(1, apply)];
    assert [Load, Load, Save(1, apply)] + [Save(0, Offer([m]))] == ss;
  }

  /** A check loads, an apply ignores `m` meanwhile, and the check saves: the apply is lost and `m` is
      pending again, however ordinary its name. */
  lemma LateCheckRevives(m: string, matches: Regex)
    requires Offerable(m)
    ensures var ss := Late(m, Applied([], [m], [], 1));
            && Inv(Pending(m).row) && CleanSteps(ss)
            && m in Elems(Reached(Pending(m), ss, matches).row.detected)
  {
    var c, apply := Pending(m).row, Applied([], [m], [], 1);
    assert !Hidden({}, m, matches);
    hide Reached, Saved, Elems, Local, Rules, Offerable, Inv, CleanSteps, Late, Hidden;
    LateRun(m, apply, matches);
    LateClean(m, apply, matches);
    PendingFacts(m);
    LateSaveOffers(c, Saved(c, c, apply, matches), m, matches);
  }

  lemma LateClean(m: string, apply: Event, matches: Regex)
    requires Offerable(m) && apply.Applied?
    ensures CleanSteps(Late(m, apply))
  {
    OfferOne(Pending(m).row, m, matches);
    AppliedClean(apply);
    hide CleanEvent, Offerable, CleanSteps;
    LateCleanIf(m, apply);
  }

  lemma LateCleanIf(m: string, apply: Event)
    requires CleanEvent(apply) && CleanEvent(Offer([m]))
    ensures CleanSteps(Late(m, apply))
  {
    hide CleanEvent, Offer;
    var ss := Late(m, apply);
    forall i | 0 <= i < |ss| && ss[i].Save? ensures CleanEvent(ss[i].e) {
      assert i == 2 || i == 3;
    }
  }

  lemma PendingFacts(m: string)
    requires Offerable(m)
    ensures Inv(Pending(m).row) && Elems(Local(Pending(m).row)) == {} && Rules(Pending(m).row) == {}
  {
    hide Trim;
    assert Normalize([]) == [];
  }

  lemma LateSaveOffers(c: Channel, row: Channel, m: string, matches: Regex)
    requires Offerable(m) && m !in Elems(Local(c)) && !Hidden(Rules(c), m, matches)
    ensures var row' := Saved(row, c, Offer([m]), matches);
            m in Elems(row'.detected) && row'.models == row.models
  {
    OfferOne(c, m, matches);
    hide Next, Hidden, Local;
  }

  /** And if the apply adds `m`: it is then in the channel and pending at once. */
  lemma LateCheckSplits(m: string, matches: Regex)
    requires Offerable(m)
    ensures var ss := Late(m, Applied([m], [], [], 1)); var row := Reached(Pending(m), ss, matches).row;
            && Inv(Pending(m).row) && CleanSteps(ss)
            && m in Elems(row.detected) && m in Elems(Local(row)) && !Inv(row)
  {
    var c, apply := Pending(m).row, Applied([m], [], [], 1);
    var mid := Next(c, apply, matches);
    var row := Saved(mid, c, Offer([m]), matches);
    assert !Hidden({}, m, matches);
    AddedIn(m, matches);
    SameLocal(row, if row.models == mid.models then mid else row);
    hide Reached, Saved, Elems, Local, Rules, Offerable, Normal, AllCommaFree, CleanSteps, Late, Hidden, Next;
    LateRun(m, apply, matches);
    LateClean(m, apply, matches);
    PendingFacts(m);
    SavedFresh(c, apply, matches);
    LateSaveOffers(c, mid, m, matches);
  }

  lemma AddedIn(m: string, matches: Regex)
    requires Offerable(m)
    ensures m in Elems(Local(Next(Pending(m).row, Applied([m], [], [], 1), matches)))
  {
    var c := Pending(m).row;
    PendingFacts(m);
    assert c.detected == [m] && m in [m];
    assert Normal(c.detected) && Normal(c.removed) && AllCommaFree(c.detected);
    AddedLocal(c, m, matches);
  }

  /** Adding a pending name puts it into the channel. */
  lemma AddedLocal(c: Channel, m: string, matches: Regex)
    requires Sound(c) && m in Elems(c.detected)
    ensures m in Elems(Local(Next(c, Applied([m], [], [], 1), matches)))
  {
    Single(c.detected, m);
    hide Apply, Check, Trim, Normalize, Local, Normal, AllCommaFree;
    ApplyElems(c, [m], [], [], 1);
    hide Elems;
    var added := {m} * Elems(c.detected);
    assert m in added;
  }
}
