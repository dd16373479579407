/**
 Keeping a channel's model list in step with its upstream: detect pending changes, apply some
 of them, ignore others, or add new models automatically.
 */
module UpstreamSync {
  import opened ModelNames

  const RULE_PREFIX := "regex:"

  /** Whether a pattern matches a name; a pattern that does not compile matches nothing. */
  type Regex = (string, string) -> bool

  datatype Option<T> = None | Some(value: T)

  /** The parts of a channel row the synchronisation reads and writes. */
  datatype Channel = Channel(
    models: string,
    ignored: seq<string>,
    detected: seq<string>,
    removed: seq<string>,
    lastCheck: int)

  /** Settings of the channel that the synchronisation only reads; `mapping` redirects source to target. */
  datatype Env = Env(mapping: map<string, string>, autoSync: bool, minInterval: int)

  function Local(c: Channel): seq<string> {
    Normalize(GetModels(c.models))
  }

  predicate HiddenBy(rule: string, name: string, matches: Regex) {
    if RULE_PREFIX <= rule then matches(Trim(rule[|RULE_PREFIX|..]), name) else rule == name
  }

  predicate Hidden(rules: set<string>, name: string, matches: Regex) {
    exists r | r in rules :: HiddenBy(r, name, matches)
  }

  // `collectPendingUpstreamModelChangesFromModels`, both results.

  function PendingAdd(local: seq<string>, upstream: seq<string>, ignored: seq<string>, mapping: map<string, string>,
                      matches: Regex)
    : seq<string>
  {
    var up := Normalize(upstream);
    var rules := Elems(Normalize(ignored));
    var covered := Elems(Normalize(local)) + mapping.Values;
    Normalize(Dropping(up, covered + set u | u in up && Hidden(rules, u, matches)))
  }

  function PendingRemove(local: seq<string>, upstream: seq<string>, mapping: map<string, string>): seq<string> {
    Normalize(Dropping(Normalize(local), mapping.Keys + Elems(Normalize(upstream))))
  }

  /** `applySelectedModelChanges`: adding wins over removing. */
  function Selected(origin: seq<string>, add: seq<string>, remove: seq<string>): seq<string> {
    var add' := Normalize(add);
    Subtract(Merge(origin, add'), Subtract(Normalize(remove), add'))
  }

  /** `checkAndPersistChannelUpstreamModelUpdates`; `upstream` is None when the fetch fails. */
  function Check(c: Channel, env: Env, upstream: Option<seq<string>>, matches: Regex, force: bool, allowAuto: bool,
                 now: int)
    : Channel
  {
    if !force && c.lastCheck > 0 && now - c.lastCheck < env.minInterval then c
    else if upstream.None? then c.(lastCheck := now)
    else
      var add := PendingAdd(GetModels(c.models), upstream.value, c.ignored, env.mapping, matches);
      var remove := PendingRemove(GetModels(c.models), upstream.value, env.mapping);
      if allowAuto && env.autoSync && add != [] then
        var merged := Merge(Local(c), add);
        c.(models := if |merged| > |Local(c)| then Join(merged)
            else c.models, detected := [], removed := remove, lastCheck := now)
      else
        c.(detected := add, removed := remove, lastCheck := now)
  }

  /** `applyChannelUpstreamModelUpdates`. */
  function Apply(c: Channel, addIn: seq<string>, ignoreIn: seq<string>, removeIn: seq<string>, now: int): Channel {
    var pendingAdd, pendingRemove := Normalize(c.detected), Normalize(c.removed);
    var add := Intersect(addIn, pendingAdd);
    var ignore := Intersect(ignoreIn, pendingAdd);
    var remove := Subtract(Intersect(removeIn, pendingRemove), add);
    var next := Selected(Local(c), add, remove);
    var merged := Merge(c.ignored, ignore);
    Channel(
      if next != Local(c) then Join(next) else c.models,
      if add != [] then Subtract(merged, add) else merged,
      Subtract(pendingAdd, add + ignore),
      Subtract(pendingRemove, remove),
      now)
  }

  /** The channel row as the two routines update it in place. */
  class StoredChannel {
    var models: string
    var ignored: seq<string>
    var detected: seq<string>
    var removed: seq<string>
    var lastCheck: int

    function View(): Channel
      reads this
    {
      Channel(models, ignored, detected, removed, lastCheck)
    }

    method CheckAndPersist(env: Env, upstream: Option<seq<string>>, matches: Regex, force: bool, allowAuto: bool,
                           now: int)
      returns (modelsChanged: bool, autoAdded: nat)
      modifies this
      ensures View() == Check(old(View()), env, upstream, matches, force, allowAuto, now)
      ensures modelsChanged == (autoAdded > 0)
      ensures !modelsChanged ==> models == old(models)
      ensures CleanUpstream(upstream) ==> |Local(View())| == |Local(old(View()))| + autoAdded
    {
      hide Normalize, Merge, Join, PendingAdd, PendingRemove, Normal, AllCommaFree, CleanUpstream, GetModels, Elems;
      modelsChanged, autoAdded := false, 0;
      if !force && lastCheck > 0 && now - lastCheck < env.minInterval {
        return;
      }
      lastCheck := now;
      if upstream.None? {
        return;
      }
      var add := PendingAdd(GetModels(models), upstream.value, ignored, env.mapping, matches);
      var remove := PendingRemove(GetModels(models), upstream.value, env.mapping);
      ghost var before := View();
      if CleanUpstream(upstream) {
        PendingCommaFree(before, env, upstream.value, matches);
      }
      if allowAuto && env.autoSync && |add| > 0 {
        var origin := Normalize(GetModels(models));
        var merged := MergeModelNames(origin, add);
        if |merged| > |origin| {
          models := Join(merged);
          autoAdded := |merged| - |origin|;
          modelsChanged := true;
        }
        detected := [];
      } else {
        detected := add;
      }
      removed := remove;
      if CleanUpstream(upstream) && allowAuto && env.autoSync && |add| > 0 {
        StoredGrown(before, add, View());
      }
    }

    method ApplyUpdates(addIn: seq<string>, ignoreIn: seq<string>, removeIn: seq<string>, now: int)
      returns (modelsChanged: bool)
      modifies this
      ensures View() == Apply(old(View()), addIn, ignoreIn, removeIn, now)
      ensures !modelsChanged ==> models == old(models)
      ensures Inv(old(View())) ==> modelsChanged == (Local(View()) != Local(old(View())))
    {
      hide Normalize, Merge, Subtract, Intersect, Selected, Join, GetModels;
      ghost var before := View();
      var pendingAdd := Normalize(detected);
      var pendingRemove := Normalize(removed);
      var add := Intersect(addIn, pendingAdd);
      var ignore := Intersect(ignoreIn, pendingAdd);
      var remove := Intersect(removeIn, pendingRemove);
      remove := Subtract(remove, add);
      var origin := Normalize(GetModels(models));
      var next := Selected(origin, add, remove);
      modelsChanged := origin != next;
      if modelsChanged {
        models := Join(next);
      }
      ignored := MergeModelNames(ignored, ignore);
      if |add| > 0 {
        ignored := Subtract(ignored, add);
      }
      detected := Subtract(pendingAdd, add + ignore);
      removed := Subtract(pendingRemove, remove);
      lastCheck := now;
      if Inv(before) {
        AppliedLocal(before, addIn, ignoreIn, removeIn, now);
      }
    }
  }

  // ---------------------------------------------------------------- what is pending

  lemma PendingAddMember(local: seq<string>, upstream: seq<string>, ignored: seq<string>, mapping: map<string, string>,
                         matches: Regex)
    ensures var add := PendingAdd(local, upstream, ignored, mapping, matches);
            && Normal(add)
            && forall u :: u in Elems(add) <==>
                 u in Elems(Normalize(upstream)) && u !in Elems(Normalize(local)) && u !in mapping.Values
                 && !Hidden(Elems(Normalize(ignored)), u, matches)
  {
    var up := Normalize(upstream);
    var out := Elems(Normalize(local)) + mapping.Values + set u | u in up
        && Hidden(Elems(Normalize(ignored)), u, matches);
    NormalizeNormal(upstream);
    DroppingMember(up, out);
    NormalizeNormalList(Dropping(up, out));
  }

  lemma PendingRemoveMember(local: seq<string>, upstream: seq<string>, mapping: map<string, string>)
    ensures var remove := PendingRemove(local, upstream, mapping);
            && Normal(remove)
            && Elems(remove) == Elems(Normalize(local)) - mapping.Keys - Elems(Normalize(upstream))
  {
    var l := Normalize(local);
    NormalizeNormal(local);
    DroppingMember(l, mapping.Keys + Elems(Normalize(upstream)));
    NormalizeNormalList(Dropping(l, mapping.Keys + Elems(Normalize(upstream))));
  }

  // ---------------------------------------------------------------- what a step keeps

  /** Pending lists are normal; pending additions are new to the channel, pending removals in it. */
  ghost predicate Inv(c: Channel) {
    && Normal(c.detected) && Normal(c.removed) && AllCommaFree(c.detected)
    && Elems(c.detected) !! Elems(Local(c))
    && Elems(c.removed) <= Elems(Local(c))
  }

  lemma SelectedElems(origin: seq<string>, add: seq<string>, remove: seq<string>)
    requires Normal(origin) && Normal(add) && Normal(remove)
    ensures Normal(Selected(origin, add, remove))
    ensures Elems(Selected(origin, add, remove)) == (Elems(origin) + Elems(add)) - (Elems(remove) - Elems(add))
  {
    NormalizeNormalList(origin);
    NormalizeNormalList(add);
    NormalizeNormalList(remove);
    MergeAlgebra(origin, add);
    SubtractAlgebra(remove, add);
    var merged, gone := Merge(origin, add), Subtract(remove, add);
    NormalizeNormalList(merged);
    NormalizeNormalList(gone);
    SubtractAlgebra(merged, gone);
  }

  lemma CommaFreeElems(xs: seq<string>)
    ensures AllCommaFree(xs) <==> forall x :: x in Elems(xs) ==> CommaFree(x)
  {
    assert forall i :: 0 <= i < |xs| ==> xs[i] in Elems(xs);
  }

  /** The model names after storing `next`. */
  lemma StoredElems(c: Channel, next: seq<string>)
    requires Normal(next) && AllCommaFree(next)
    ensures Normalize(GetModels(if next != Local(c) then Join(next) else c.models)) == next
  {
    StoreAndLoad(next);
  }

  /** What applying a selection does, in terms of sets. */
  lemma ApplyElems(c: Channel, addIn: seq<string>, ignoreIn: seq<string>, removeIn: seq<string>, now: int)
    requires Normal(c.detected) && Normal(c.removed)
    ensures var c' := Apply(c, addIn, ignoreIn, removeIn, now);
            var A := Elems(Normalize(addIn)) * Elems(c.detected);
            var I := Elems(Normalize(ignoreIn)) * Elems(c.detected);
            var R := Elems(Normalize(removeIn)) * Elems(c.removed) - A;
            && Normal(c'.detected) && Elems(c'.detected) == Elems(c.detected) - A - I
            && Normal(c'.removed) && Elems(c'.removed) == Elems(c.removed) - R
            && Normal(c'.ignored) && Elems(c'.ignored) == (Elems(Normalize(c.ignored)) + I) - A
            && (AllCommaFree(c.detected) ==> Elems(Local(c')) == (Elems(Local(c)) + A) - R)
            && c'.lastCheck == now
  {
    hide Normalize, Merge, Subtract, Intersect, Selected, Join, GetModels, Elems, Normal, CommaFree, AllCommaFree;
    var add, ignore := Intersect(addIn, c.detected), Intersect(ignoreIn, c.detected);
    var remove := Subtract(Intersect(removeIn, c.removed), add);
    NormalizeNormalList(c.detected);
    NormalizeNormalList(c.removed);
    IntersectAlgebra(addIn, c.detected);
    IntersectAlgebra(ignoreIn, c.detected);
    SubtractNormal(removeIn, c.removed, add);
    AppliedIgnored(c.ignored, ignore, add);
    AppliedDetected(c.detected, add, ignore);
    NormalizeNormalList(remove);
    SubtractAlgebra(c.removed, remove);
    NormalizeNormal(GetModels(c.models));
    SelectedElems(Local(c), add, remove);
    if AllCommaFree(c.detected) {
      SelectedCommaFree(c, add, remove);
      StoredElems(c, Selected(Local(c), add, remove));
    }
  }

  /** The models after applying are the selected ones, in that order. */
  lemma AppliedLocal(c: Channel, addIn: seq<string>, ignoreIn: seq<string>, removeIn: seq<string>, now: int)
    requires Normal(c.detected) && Normal(c.removed) && AllCommaFree(c.detected)
    ensures var add := Intersect(addIn, Normalize(c.detected));
            var remove := Subtract(Intersect(removeIn, Normalize(c.removed)), add);
            Local(Apply(c, addIn, ignoreIn, removeIn, now)) == Selected(Local(c), add, remove)
  {
    hide Normalize, Merge, Subtract, Intersect, Selected, Join, GetModels, Elems, Normal, CommaFree, AllCommaFree;
    NormalizeNormalList(c.detected);
    NormalizeNormalList(c.removed);
    var add := Intersect(addIn, c.detected);
    var remove := Subtract(Intersect(removeIn, c.removed), add);
    IntersectAlgebra(addIn, c.detected);
    SubtractNormal(removeIn, c.removed, add);
    NormalizeNormal(GetModels(c.models));
    SelectedElems(Local(c), add, remove);
    SelectedCommaFree(c, add, remove);
    StoredElems(c, Selected(Local(c), add, remove));
  }

  lemma SubtractNormal(xs: seq<string>, allowed: seq<string>, out: seq<string>)
    requires Normal(allowed) && Normal(out)
    ensures var left := Subtract(Intersect(xs, allowed), out);
            Normal(left) && Elems(left) == Elems(Normalize(xs)) * Elems(allowed) - Elems(out)
  {
    var both := Intersect(xs, allowed);
    IntersectAlgebra(xs, allowed);
    NormalizeNormalList(allowed);
    NormalizeNormalList(both);
    NormalizeNormalList(out);
    SubtractAlgebra(both, out);
  }

  lemma SelectedCommaFree(c: Channel, add: seq<string>, remove: seq<string>)
    requires Normal(add) && Normal(remove) && Elems(add) <= Elems(c.detected) && AllCommaFree(c.detected)
    ensures AllCommaFree(Selected(Local(c), add, remove))
  {
    NormalizeNormal(GetModels(c.models));
    SelectedElems(Local(c), add, remove);
    LoadedCommaFree(c.models);
    CommaFreeElems(Local(c));
    CommaFreeElems(c.detected);
    CommaFreeElems(Selected(Local(c), add, remove));
  }

  lemma AppliedIgnored(ignored: seq<string>, ignore: seq<string>, add: seq<string>)
    requires Normal(ignore) && Normal(add)
    ensures var merged := Merge(ignored, ignore);
            var left := if add != [] then Subtract(merged, add) else merged;
            Normal(left) && Elems(left) == (Elems(Normalize(ignored)) + Elems(ignore)) - Elems(add)
  {
    var merged := Merge(ignored, ignore);
    MergeAlgebra(ignored, ignore);
    NormalizeNormalList(ignore);
    NormalizeNormalList(merged);
    NormalizeNormalList(add);
    SubtractAlgebra(merged, add);
  }

  lemma AppliedDetected(detected: seq<string>, add: seq<string>, ignore: seq<string>)
    requires Normal(detected) && Normal(add) && Normal(ignore)
    ensures var left := Subtract(detected, add + ignore);
            Normal(left) && Elems(left) == Elems(detected) - Elems(add) - Elems(ignore)
  {
    NormalizeNormalList(detected);
    SubtractAlgebra(detected, add + ignore);
    forall t
      ensures t in Elems(Normalize(add + ignore)) <==> t in Elems(add) || t in Elems(ignore)
    {
      NormalizeMember(add + ignore, t);
      if t in add {
        var i :| 0 <= i < |add| && add[i] == t;
        assert Trim((add + ignore)[i]) == t;
      }
      if t in ignore {
        var i :| 0 <= i < |ignore| && ignore[i] == t;
        assert Trim((add + ignore)[|add| + i]) == t;
      }
    }
  }

  lemma ApplyKeepsInv(c: Channel, addIn: seq<string>, ignoreIn: seq<string>, removeIn: seq<string>, now: int)
    requires Inv(c)
    ensures Inv(Apply(c, addIn, ignoreIn, removeIn, now))
  {
    ApplyElems(c, addIn, ignoreIn, removeIn, now);
    CommaFreeElems(c.detected);
    CommaFreeElems(Apply(c, addIn, ignoreIn, removeIn, now).detected);
  }

  predicate CleanUpstream(upstream: Option<seq<string>>) {
    upstream.Some? ==> forall u | u in Normalize(upstream.value) :: CommaFree(u)
  }

  /** What a rule hides: after the prefix, what its trimmed pattern matches; any other rule, the model of that
      very name. */
  lemma RuleHides(rule: string, name: string, matches: Regex)
    ensures HiddenBy("regex:" + rule, name, matches) <==> matches(Trim(rule), name)
    ensures !("regex:" <= rule) ==> (HiddenBy(rule, name, matches) <==> rule == name)
  {
    assert ("regex:" + rule)[6..] == rule;
  }

  /** Upstream offers this model, and it is neither in the channel nor a redirect's target nor ignored. */
  ghost predicate Offered(c: Channel, env: Env, upstream: seq<string>, matches: Regex, u: string) {
    && u in Elems(Normalize(upstream)) && u !in Elems(Local(c))
    && (forall s :: s in env.mapping ==> env.mapping[s] != u)
    && forall r :: r in Elems(Normalize(c.ignored)) ==> !HiddenBy(r, u, matches)
  }

  lemma OfferedPending(c: Channel, env: Env, upstream: seq<string>, matches: Regex)
    ensures var add := PendingAdd(GetModels(c.models), upstream, c.ignored, env.mapping, matches);
            Normal(add) && forall u :: u in Elems(add) <==> Offered(c, env, upstream, matches, u)
  {
    PendingAddMember(GetModels(c.models), upstream, c.ignored, env.mapping, matches);
  }

  /**
   What a check does, on every path.  Too soon after the last one an unforced check does nothing; a failed
   fetch counts as a check and changes nothing else.  Otherwise the removable models are the channel's that
   upstream lacks and no redirect explains, and the fresh ones join the channel, behind what it has, if that
   is allowed and enabled, and are noted as detected if not.
   */
  lemma CheckLaw(c: Channel, env: Env, upstream: Option<seq<string>>, matches: Regex, force: bool, allowAuto: bool,
                 now: int)
    ensures var c' := Check(c, env, upstream, matches, force, allowAuto, now);
      if !force && c.lastCheck > 0 && now - c.lastCheck < env.minInterval then c' == c
      else if upstream == None then c' == Channel(c.models, c.ignored, c.detected, c.removed, now)
      else
        && c'.ignored == c.ignored && c'.lastCheck == now && Normal(c'.removed) && Normal(c'.detected)
        && (forall m :: m in Elems(c'.removed) <==>
              m in Elems(Local(c)) && m !in env.mapping && m !in Elems(Normalize(upstream.value)))
        && if allowAuto && env.autoSync
           then c'.detected == [] && Grows(c, env, upstream.value, matches, c')
           else c'.models == c.models
                && forall u :: u in Elems(c'.detected) <==> Offered(c, env, upstream.value, matches, u)
  {
    hide Normalize, Merge, Join, GetModels, PendingAdd, PendingRemove, Elems, Offered, Grows;
    if upstream.Some? {
      OfferedPending(c, env, upstream.value, matches);
      PendingRemoveMember(GetModels(c.models), upstream.value, env.mapping);
      var add := PendingAdd(GetModels(c.models), upstream.value, c.ignored, env.mapping, matches);
      MergedLocal(c, add);
      EmptyElems(add);
      if (force || c.lastCheck <= 0 || now - c.lastCheck >= env.minInterval) && allowAuto && env.autoSync {
        AutoGrows(c, env, upstream.value, matches, Check(c, env, upstream, matches, force, allowAuto, now));
      }
    }
  }

  /** The channel's models are as before, followed by the fresh ones. */
  ghost predicate Grows(c: Channel, env: Env, upstream: seq<string>, matches: Regex, c': Channel) {
    && ((forall u :: !Offered(c, env, upstream, matches, u)) ==> c'.models == c.models)
    && (CleanUpstream(Some(upstream)) ==>
          Local(c) <= Local(c') &&
          forall u :: u in Elems(Local(c')) <==> u in Elems(Local(c)) || Offered(c, env, upstream, matches, u))
  }

  lemma AutoGrows(c: Channel, env: Env, upstream: seq<string>, matches: Regex, c': Channel)
    requires var add := PendingAdd(GetModels(c.models), upstream, c.ignored, env.mapping, matches);
             c'.models == if |Merge(Local(c), add)| > |Local(c)| then Join(Merge(Local(c), add)) else c.models
    ensures Grows(c, env, upstream, matches, c')
  {
    var add := PendingAdd(GetModels(c.models), upstream, c.ignored, env.mapping, matches);
    OfferedPending(c, env, upstream, matches);
    MergedLocal(c, add);
    hide Normalize, Merge, Join, GetModels, PendingAdd, Elems, Offered;
    EmptyElems(add);
    if CleanUpstream(Some(upstream)) {
      PendingCommaFree(c, env, upstream, matches);
      StoredGrown(c, add, c');
    }
  }

  lemma PendingCommaFree(c: Channel, env: Env, upstream: seq<string>, matches: Regex)
    requires CleanUpstream(Some(upstream))
    ensures var add := PendingAdd(GetModels(c.models), upstream, c.ignored, env.mapping, matches);
            Normal(add) && AllCommaFree(add)
  {
    OfferedPending(c, env, upstream, matches);
    CommaFreeElems(PendingAdd(GetModels(c.models), upstream, c.ignored, env.mapping, matches));
  }

  lemma MergedLocal(c: Channel, add: seq<string>)
    requires Normal(add)
    ensures Merge(Local(c), add) == Local(c) + Dropping(add, Elems(Local(c)))
    ensures add == [] ==> Merge(Local(c), add) == Local(c)
  {
    NormalizeNormal(GetModels(c.models));
    NormalizeNormalList(Local(c));
    NormalizeNormalList(add);
  }

  lemma StoredGrown(c: Channel, add: seq<string>, c': Channel)
    requires Normal(add) && AllCommaFree(add)
    requires c'.models == if |Merge(Local(c), add)| > |Local(c)| then Join(Merge(Local(c), add)) else c.models
    ensures Local(c') == Merge(Local(c), add) && Elems(Local(c')) == Elems(Local(c)) + Elems(add)
  {
    MergedLocal(c, add);
    var merged := Merge(Local(c), add);
    MergeAlgebra(Local(c), add);
    NormalizeNormal(GetModels(c.models));
    NormalizeNormalList(Local(c));
    NormalizeNormalList(add);
    LoadedCommaFree(c.models);
    CommaFreeElems(Local(c));
    CommaFreeElems(add);
    CommaFreeElems(merged);
    StoreAndLoad(merged);
    if |merged| <= |Local(c)| {
      assert merged == Local(c);
    }
  }

  /** The channel's models after a check: unchanged, or with the pending additions merged in. */
  lemma CheckElems(c: Channel, env: Env, upstream: Option<seq<string>>, matches: Regex, force: bool, allowAuto: bool,
                   now: int)
    requires CleanUpstream(upstream)
    ensures var c' := Check(c, env, upstream, matches, force, allowAuto, now);
            || (c'.models == c.models && c'.detected == c.detected && c'.removed == c.removed)
            || (upstream.Some? &&
                var add := PendingAdd(GetModels(c.models), upstream.value, c.ignored, env.mapping, matches);
                && c'.removed == PendingRemove(GetModels(c.models), upstream.value, env.mapping)
                && ((c'.detected == add && c'.models == c.models)
                    || (c'.detected == [] && Elems(Local(c')) == Elems(Local(c)) + Elems(add))))
    ensures Check(c, env, upstream, matches, force, allowAuto, now).ignored == c.ignored
  {
    if upstream.Some? {
      AutoAdded(c, env, upstream.value, matches);
    }
  }

  /** Merging the pending additions into the stored list adds exactly them. */
  lemma AutoAdded(c: Channel, env: Env, upstream: seq<string>, matches: Regex)
    requires CleanUpstream(Some(upstream))
    ensures var add := PendingAdd(GetModels(c.models), upstream, c.ignored, env.mapping, matches);
            var merged := Merge(Local(c), add);
            Elems(Normalize(GetModels(if |merged| > |Local(c)| then Join(merged) else c.models)))
                == Elems(Local(c)) + Elems(add)
  {
    var add := PendingAdd(GetModels(c.models), upstream, c.ignored, env.mapping, matches);
    PendingAddMember(GetModels(c.models), upstream, c.ignored, env.mapping, matches);
    NormalizeNormal(GetModels(c.models));
    NormalizeNormalList(Local(c));
    NormalizeNormalList(add);
    MergeAlgebra(Local(c), add);
    LoadedCommaFree(c.models);
    var merged := Merge(Local(c), add);
    CommaFreeElems(Local(c));
    CommaFreeElems(merged);
    StoreAndLoad(merged);
    if |merged| <= |Local(c)| {
      assert merged == Local(c) + Dropping(add, Elems(Local(c)));
      assert merged == Local(c);
    }
  }

  lemma CheckKeepsInv(c: Channel, env: Env, upstream: Option<seq<string>>, matches: Regex, force: bool,
                      allowAuto: bool, now: int)
    requires Inv(c) && CleanUpstream(upstream)
    ensures Inv(Check(c, env, upstream, matches, force, allowAuto, now))
  {
    CheckElems(c, env, upstream, matches, force, allowAuto, now);
    if upstream.Some? {
      PendingAddMember(GetModels(c.models), upstream.value, c.ignored, env.mapping, matches);
      PendingRemoveMember(GetModels(c.models), upstream.value, env.mapping);
      CommaFreeElems(PendingAdd(GetModels(c.models), upstream.value, c.ignored, env.mapping, matches));
    }
  }

  // ---------------------------------------------------------------- whole runs, one routine at a time

  datatype Event =
    | Checked(env: Env, upstream: Option<seq<string>>, force: bool, allowAuto: bool, at: int)
    | Applied(add: seq<string>, ignore: seq<string>, remove: seq<string>, at: int)

  function Next(c: Channel, e: Event, matches: Regex): Channel {
    match e
    case Checked(env, upstream, force, allowAuto, at) => Check(c, env, upstream, matches, force, allowAuto, at)
    case Applied(add, ignore, remove, at) => Apply(c, add, ignore, remove, at)
  }

  function After(c: Channel, es: seq<Event>, matches: Regex): Channel {
    if es == [] then c else Next(After(c, es[..|es| - 1], matches), es[|es| - 1], matches)
  }

  ghost predicate Clean(es: seq<Event>) {
    forall i :: 0 <= i < |es| && es[i].Checked? ==> CleanUpstream(es[i].upstream)
  }

  lemma NextKeepsInv(c: Channel, e: Event, matches: Regex)
    requires Inv(c) && (e.Checked? ==> CleanUpstream(e.upstream))
    ensures Inv(Next(c, e, matches))
    ensures Normal(c.ignored) ==> Normal(Next(c, e, matches).ignored)
  {
    match e
    case Checked(env, upstream, force, allowAuto, at) =>
      CheckKeepsInv(c, env, upstream, matches, force, allowAuto, at);
    case Applied(add, ignore, remove, at) =>
      ApplyKeepsInv(c, add, ignore, remove, at);
      ApplyElems(c, add, ignore, remove, at);
  }

  /** Over every run of checks, automatic syncs and applies, one at a time: detected models stay disjoint from the
      channel's, removable ones stay among them, and every list stays duplicate-free. */
  lemma {:induction false} RunKeepsInv(c: Channel, es: seq<Event>, matches: Regex)
    requires Inv(c) && Normal(c.ignored) && Clean(es)
    ensures Inv(After(c, es, matches)) && Normal(After(c, es, matches).ignored)
  {
    if es != [] {
      RunKeepsInv(c, es[..|es| - 1], matches);
      NextKeepsInv(After(c, es[..|es| - 1], matches), es[|es| - 1], matches);
    }
  }

  /** Ignored by name, and neither pending nor in the channel. */
  ghost predicate Banned(c: Channel, m: string) {
    m in Elems(Normalize(c.ignored)) && m !in Elems(c.detected) && m !in Elems(Local(c))
  }

  lemma NextKeepsBan(c: Channel, e: Event, matches: Regex, m: string)
    requires Inv(c) && (e.Checked? ==> CleanUpstream(e.upstream)) && Banned(c, m) && HiddenBy(m, m, matches)
    ensures Banned(Next(c, e, matches), m)
  {
    match e
    case Checked(env, upstream, force, allowAuto, at) =>
      CheckElems(c, env, upstream, matches, force, allowAuto, at);
      if upstream.Some? {
        PendingAddMember(GetModels(c.models), upstream.value, c.ignored, env.mapping, matches);
      }
    case Applied(add, ignore, remove, at) =>
      ApplyElems(c, add, ignore, remove, at);
      NormalizeNormalList(Apply(c, add, ignore, remove, at).ignored);
  }

  lemma {:induction false} RunKeepsBan(c: Channel, es: seq<Event>, matches: Regex, m: string)
    requires Inv(c) && Normal(c.ignored) && Clean(es) && Banned(c, m) && HiddenBy(m, m, matches)
    ensures Banned(After(c, es, matches), m)
  {
    if es != [] {
      var front := es[..|es| - 1];
      RunKeepsBan(c, front, matches, m);
      RunKeepsInv(c, front, matches);
      NextKeepsBan(After(c, front, matches), es[|es| - 1], matches, m);
    }
  }

  /** A detected model that an apply ignores and does not add is never again detected, and never
      added, whatever is checked or applied later, if as an ignore rule its name hides itself: every
      ordinary name does, and so does a `regex:` name whose pattern matches that name. */
  lemma IgnoredForever(c: Channel, addIn: seq<string>, ignoreIn: seq<string>, removeIn: seq<string>, now: int,
                       m: string, es: seq<Event>, matches: Regex)
    requires Inv(c) && Clean(es) && HiddenBy(m, m, matches)
    requires m in Elems(c.detected) && m in Elems(Normalize(ignoreIn)) && m !in Elems(Normalize(addIn))
    ensures var c' := After(Apply(c, addIn, ignoreIn, removeIn, now), es, matches);
            m !in Elems(c'.detected) && m !in Elems(Local(c'))
  {
    var a := Apply(c, addIn, ignoreIn, removeIn, now);
    ApplyElems(c, addIn, ignoreIn, removeIn, now);
    ApplyKeepsInv(c, addIn, ignoreIn, removeIn, now);
    NormalizeNormalList(a.ignored);
    RunKeepsBan(a, es, matches, m);
  }

  /** The prefix matters: a model named like a rule becomes a rule when ignored, and as a rule it
      hides what its pattern matches, which need not be itself; then it is pending again. */
  lemma IgnoredRuleNameReturns(m: string, matches: Regex)
    requires RULE_PREFIX <= m && Trim(m) == m && !matches(Trim(m[|RULE_PREFIX|..]), m)
    ensures var a := Apply(Channel("", [], [m], [], 0), [], [m], [], 1);
            m in Elems(Check(a, Env(map[], false, 0), Some([m]), matches, true, false, 2).detected)
  {
    hide Check, Apply, Trim;
    var c := Channel("", [], [m], [], 0);
    assert Normal([m]) && Normal(c.removed);
    NormalizeNormalList([m]);
    assert Normalize([]) == [];
    ApplyElems(c, [], [m], [], 1);
    var a := Apply(c, [], [m], [], 1);
    NormalizeNormalList(a.ignored);
    assert Elems(a.ignored) == {m};
    assert !Hidden({m}, m, matches);
    OnlyIgnored(c, m);
    CheckedSets(a, Env(map[], false, 0), [m], matches, 2);
  }

  /** `m`, once ignored and not added, never comes back in any channel on any run. */
  ghost predicate NeverReturns(m: string, matches: Regex) {
    forall c, addIn, ignoreIn, removeIn, now, es ::
      Inv(c) && Clean(es) && m in Elems(c.detected) && m in Elems(Normalize(ignoreIn)) && m !in Elems(Normalize(addIn))
      ==> var c' := After(Apply(c, addIn, ignoreIn, removeIn, now), es, matches);
          m !in Elems(c'.detected) && m !in Elems(Local(c'))
  }

  /** Exactly which ignored models stay away forever: those whose name, read as a rule, hides itself. */
  lemma IgnoredForeverIff(m: string, matches: Regex)
    requires Trim(m) == m && m != "" && CommaFree(m)
    ensures NeverReturns(m, matches) <==> HiddenBy(m, m, matches)
  {
    hide After, Apply, Check, Trim, Clean;
    if HiddenBy(m, m, matches) {
      forall c, addIn, ignoreIn, removeIn, now, es |
        Inv(c) && Clean(es) && m in Elems(c.detected) && m in Elems(Normalize(ignoreIn))
            && m !in Elems(Normalize(addIn))
        ensures var c' := After(Apply(c, addIn, ignoreIn, removeIn, now), es, matches);
                m !in Elems(c'.detected) && m !in Elems(Local(c'))
      {
        IgnoredForever(c, addIn, ignoreIn, removeIn, now, m, es, matches);
      }
    } else {
      IgnoredRuleNameReturns(m, matches);
      ReturningRun(m, matches);
      var c := Channel("", [], [m], [], 0);
      NormalizeNormalList([m]);
      var e := Checked(Env(map[], false, 0), Some([m]), true, false, 2);
      assert m in Elems(c.detected) && m in Elems(Normalize([m])) && m !in Elems(Normalize([]));
      assert m in Elems(After(Apply(c, [], [m], [], 1), [e], matches).detected);
    }
  }

  lemma ReturningRun(m: string, matches: Regex)
    requires Trim(m) == m && m != "" && CommaFree(m)
    ensures Inv(Channel("", [], [m], [], 0)) && Normal([m])
    ensures var e := Checked(Env(map[], false, 0), Some([m]), true, false, 2);
            Clean([e]) && forall c ::
                  After(c, [e], matches) == Check(c, Env(map[], false, 0), Some([m]), matches, true, false, 2)
  {
    hide Check, Apply, Trim;
    var e := Checked(Env(map[], false, 0), Some([m]), true, false, 2);
    NormalizeNormalList([m]);
    forall c ensures After(c, [e], matches) == Check(c, Env(map[], false, 0), Some([m]), matches, true, false, 2) {
      assert [e][..0] == [];
      assert After(c, [], matches) == c;
    }
  }

  lemma OnlyIgnored(c: Channel, m: string)
    requires c == Channel("", [], [m], [], 0) && Normal([m])
    ensures Local(Apply(c, [], [m], [], 1)) == []
  {
    NormalizeNormalList([m]);
    assert Normalize([]) == [];
    assert Intersect([], [m]) == [] && Intersect([], []) == [] && Subtract([], []) == [];
    assert Selected([], [], []) == [];
  }

  // ---------------------------------------------------------------- convergence

  /** Every upstream model hidden now stays hidden once the rules that are themselves about to be
      added as models are gone. */
  ghost predicate KeepsHiding(c: Channel, env: Env, upstream: seq<string>, added: set<string>, matches: Regex) {
    forall u :: u in Elems(Normalize(upstream)) && u !in Elems(Local(c)) && u !in env.mapping.Values
                && Hidden(Elems(Normalize(c.ignored)), u, matches)
                ==> Hidden(Elems(Normalize(c.ignored)) - added, u, matches)
  }

  lemma EmptyElems(xs: seq<string>)
    ensures xs == [] <==> Elems(xs) == {}
  {
    if xs != [] {
      assert xs[0] in Elems(xs);
    }
  }

  /** What a forced check finds, in terms of sets. */
  lemma CheckedSets(c: Channel, env: Env, upstream: seq<string>, matches: Regex, now: int)
    ensures var d := Check(c, env, Some(upstream), matches, true, false, now);
            && d.models == c.models && d.ignored == c.ignored && Normal(d.detected) && Normal(d.removed)
            && (forall u :: u in Elems(d.detected) <==>
                  u in Elems(Normalize(upstream)) && u !in Elems(Local(c)) && u !in env.mapping.Values
                  && !Hidden(Elems(Normalize(c.ignored)), u, matches))
            && Elems(d.removed) == Elems(Local(c)) - env.mapping.Keys - Elems(Normalize(upstream))
  {
    PendingAddMember(GetModels(c.models), upstream, c.ignored, env.mapping, matches);
    PendingRemoveMember(GetModels(c.models), upstream, env.mapping);
  }

  /** What applying everything pending leaves, in terms of sets. */
  lemma AppliedSets(d: Channel, now: int)
    requires Normal(d.detected) && Normal(d.removed) && Elems(d.detected) !! Elems(d.removed)
    ensures var a := Apply(d, d.detected, [], d.removed, now);
            && Elems(Normalize(a.ignored)) == Elems(Normalize(d.ignored)) - Elems(d.detected)
            && (AllCommaFree(d.detected) ==> Elems(Local(a)) == Elems(Local(d)) + Elems(d.detected) - Elems(d.removed))
  {
    hide Apply, Normal, AllCommaFree, Local;
    ApplyElems(d, d.detected, [], d.removed, now);
    NormalizeNormalList(d.detected);
    NormalizeNormalList(d.removed);
    NormalizeNormalList(Apply(d, d.detected, [], d.removed, now).ignored);
    assert Normalize([]) == [];
  }

  lemma HiddenMonotone(rules: set<string>, more: set<string>, name: string, matches: Regex)
    requires rules <= more && Hidden(rules, name, matches)
    ensures Hidden(more, name, matches)
  {
  }

  lemma ConvergesIf(c: Channel, env: Env, upstream: seq<string>, matches: Regex, t0: int, t1: int, t2: int)
    requires var d := Check(c, env, Some(upstream), matches, true, false, t0);
             AllCommaFree(d.detected) && KeepsHiding(c, env, upstream, Elems(d.detected), matches)
    ensures var d := Check(c, env, Some(upstream), matches, true, false, t0);
            var e := Check(Apply(d, d.detected, [], d.removed, t1), env, Some(upstream), matches, true, false, t2);
            e.detected == [] && e.removed == []
  {
    hide Check, Apply, Local, Hidden;
    var d := Check(c, env, Some(upstream), matches, true, false, t0);
    CheckedSets(c, env, upstream, matches, t0);
    assert Local(d) == Local(c) by { SameLocal(c, d); }
    AppliedSets(d, t1);
    var a := Apply(d, d.detected, [], d.removed, t1);
    CheckedSets(a, env, upstream, matches, t2);
    var e := Check(a, env, Some(upstream), matches, true, false, t2);
    EmptyElems(e.detected);
    EmptyElems(e.removed);
  }

  lemma SameLocal(c: Channel, d: Channel)
    requires c.models == d.models
    ensures Local(c) == Local(d)
  {
  }

  lemma ConvergesOnlyIf(c: Channel, env: Env, upstream: seq<string>, matches: Regex, t0: int, t1: int, t2: int)
    requires var d := Check(c, env, Some(upstream), matches, true, false, t0);
             var e := Check(Apply(d, d.detected, [], d.removed, t1), env, Some(upstream), matches, true, false, t2);
             e.detected == []
    ensures var d := Check(c, env, Some(upstream), matches, true, false, t0);
            AllCommaFree(d.detected) && KeepsHiding(c, env, upstream, Elems(d.detected), matches)
  {
    hide Check, Apply, Local, Hidden;
    var d := Check(c, env, Some(upstream), matches, true, false, t0);
    CheckedSets(c, env, upstream, matches, t0);
    SameLocal(c, d);
    AppliedSets(d, t1);
    var a := Apply(d, d.detected, [], d.removed, t1);
    CheckedSets(a, env, upstream, matches, t2);
    EmptyElems(Check(a, env, Some(upstream), matches, true, false, t2).detected);
    var rules, left := Elems(Normalize(c.ignored)), Elems(Normalize(a.ignored));
    CommaFreeElems(d.detected);
    forall x | x in Elems(d.detected)
      ensures CommaFree(x)
    {
      // Not pending any more, so it must be in the channel now, and names read back have no comma.
      if Hidden(left, x, matches) {
        HiddenMonotone(left, rules, x, matches);
      }
      assert x in Elems(Local(a));
      LocalCommaFree(a, x);
    }
  }

  lemma LocalCommaFree(c: Channel, x: string)
    requires x in Elems(Local(c))
    ensures CommaFree(x)
  {
    LoadedCommaFree(c.models);
    CommaFreeElems(Local(c));
  }

  /** Convergence, exactly: detecting against a fixed upstream list, applying everything pending and
      detecting again finds nothing if and only if no pending name contains a comma and no pending
      name is an ignore rule that some hidden model depends on. */
  lemma ConvergesIff(c: Channel, env: Env, upstream: seq<string>, matches: Regex, t0: int, t1: int, t2: int)
    ensures var d := Check(c, env, Some(upstream), matches, true, false, t0);
            var e := Check(Apply(d, d.detected, [], d.removed, t1), env, Some(upstream), matches, true, false, t2);
            e.detected == [] && e.removed == []
            <==> AllCommaFree(d.detected) && KeepsHiding(c, env, upstream, Elems(d.detected), matches)
  {
    var d := Check(c, env, Some(upstream), matches, true, false, t0);
    if AllCommaFree(d.detected) && KeepsHiding(c, env, upstream, Elems(d.detected), matches) {
      ConvergesIf(c, env, upstream, matches, t0, t1, t2);
    } else {
      var e := Check(Apply(d, d.detected, [], d.removed, t1), env, Some(upstream), matches, true, false, t2);
      if e.detected == [] {
        ConvergesOnlyIf(c, env, upstream, matches, t0, t1, t2);
      }
    }
  }

  /** An input on which it fails: upstream offers a model whose name is the ignore rule that hides the
      other one.  Applying adds the rule as a model, which deletes the rule, and the other is pending. */
  lemma RuleAddedRuleLost(matches: Regex, t0: int, t1: int, t2: int)
    requires matches("x", "x1") && !matches("x", "regex:x")
    ensures var c, env, upstream := Channel("", ["regex:x"], [], [], 0), Env(map[], false, 0), ["regex:x", "x1"];
            var d := Check(c, env, Some(upstream), matches, true, false, t0);
            var e := Check(Apply(d, d.detected, [], d.removed, t1), env, Some(upstream), matches, true, false, t2);
            e.detected != [] || e.removed != []
  {
    hide Check, Apply;
    var c, env, upstream := Channel("", ["regex:x"], [], [], 0), Env(map[], false, 0), ["regex:x", "x1"];
    RuleAddedNames();
    var d := Check(c, env, Some(upstream), matches, true, false, t0);
    CheckedSets(c, env, upstream, matches, t0);
    var rules := Elems(Normalize(c.ignored));
    assert rules == {"regex:x"};
    assert HiddenBy("regex:x", "x1", matches);
    assert "regex:x" in Elems(d.detected);
    assert "x1" in Elems(Normalize(upstream)) && Hidden(rules, "x1", matches);
    assert rules - Elems(d.detected) == {};
    assert !Hidden({}, "x1", matches);
    ConvergesIff(c, env, upstream, matches, t0, t1, t2);
  }

  lemma RuleAddedNames()
    ensures Normalize(["regex:x", "x1"]) == ["regex:x", "x1"] && Normalize(["regex:x"]) == ["regex:x"]
    ensures RULE_PREFIX <= "regex:x" && Trim("regex:x"[|RULE_PREFIX|..]) == "x"
  {
    assert "regex:x"[|RULE_PREFIX|..] == "x";
    StripStripped("x", SPACES);
    StripStripped("x1", SPACES);
    StripStripped("regex:x", SPACES);
    hide Strip;
    var both := ["regex:x", "x1"];
    assert both[0] != both[1];
    assert Normal(both);
    NormalizeNormalList(both);
    NormalizeNormalList(["regex:x"]);
  }

  /** For ordinary names, without commas and not shaped like a rule, convergence always holds. */
  lemma OrdinaryNamesConverge(c: Channel, env: Env, upstream: seq<string>, matches: Regex, t0: int, t1: int, t2: int)
    requires forall u :: u in Elems(Normalize(upstream)) ==> CommaFree(u) && !(RULE_PREFIX <= u)
    ensures var d := Check(c, env, Some(upstream), matches, true, false, t0);
            var e := Check(Apply(d, d.detected, [], d.removed, t1), env, Some(upstream), matches, true, false, t2);
            e.detected == [] && e.removed == []
  {
    hide Check, Apply, Local, Normalize, AllCommaFree;
    var d := Check(c, env, Some(upstream), matches, true, false, t0);
    CheckedSets(c, env, upstream, matches, t0);
    CommaFreeElems(d.detected);
    var rules := Elems(Normalize(c.ignored));
    forall u | u in Elems(Normalize(upstream)) && u !in Elems(Local(c)) && u !in env.mapping.Values
        && Hidden(rules, u, matches)
      ensures Hidden(rules - Elems(d.detected), u, matches)
    {
      var r :| r in rules && HiddenBy(r, u, matches);
      // an ordinary name hides only itself, and what is pending is not hidden
      assert r !in Elems(d.detected);
    }
    ConvergesIf(c, env, upstream, matches, t0, t1, t2);
  }

  /** One automatic sync adds everything new: the next check finds nothing to add. */
  lemma AutoSyncConverges(c: Channel, env: Env, upstream: seq<string>, matches: Regex, t0: int, t1: int)
    requires env.autoSync && CleanUpstream(Some(upstream))
    ensures var d := Check(c, env, Some(upstream), matches, true, true, t0);
            d.detected == [] && Check(d, env, Some(upstream), matches, true, false, t1).detected == []
  {
    hide Normalize, Merge, Join, Hidden, GetModels, PendingAdd, PendingRemove, Elems;
    var d := Check(c, env, Some(upstream), matches, true, true, t0);
    AutoAdded(c, env, upstream, matches);
    var add := PendingAdd(GetModels(c.models), upstream, c.ignored, env.mapping, matches);
    PendingAddMember(GetModels(c.models), upstream, c.ignored, env.mapping, matches);
    EmptyElems(add);
    assert Elems(Local(d)) == Elems(Local(c)) + Elems(add);
    PendingAddMember(GetModels(d.models), upstream, d.ignored, env.mapping, matches);
    EmptyElems(PendingAdd(GetModels(d.models), upstream, d.ignored, env.mapping, matches));
  }
}
