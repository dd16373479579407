/**
 Managing the keys of a multi-key channel.  Status, disabling time and reason are kept in maps
 from key index, so deleting a key must re-index all three.
 */
module MultiKey {
  import opened ModelNames

  const ENABLED := 1
  const MANUALLY_DISABLED := 2
  const AUTO_DISABLED := 3

  /** The stored channel row, as far as its keys go. */
  datatype Row = Row(keys: seq<string>, size: int, status: map<int, int>, time: map<int, int>, reason: map<int, string>)

  /** What `get_key_status` shows for one key. */
  datatype Shown = Shown(key: string, status: int, time: int, reason: string)

  function StatusOf(row: Row, i: int): int {
    if i in row.status then row.status[i] else ENABLED
  }

  function ShownAt(row: Row, i: nat): Shown
    requires i < |row.keys|
  {
    var s := StatusOf(row, i);
    Shown(row.keys[i], s,
          if s != ENABLED && i in row.time then row.time[i] else 0,
          if s != ENABLED && i in row.reason then row.reason[i] else "")
  }

  function View(row: Row): seq<Shown> {
    seq(|row.keys|, i requires 0 <= i < |row.keys| => ShownAt(row, i))
  }

  /** The size is the key count and every index-keyed map stays in range. */
  ghost predicate Valid(row: Row) {
    && row.size == |row.keys|
    && (forall i :: i in row.status ==> 0 <= i < row.size)
    && (forall i :: i in row.time ==> 0 <= i < row.size)
    && (forall i :: i in row.reason ==> 0 <= i < row.size)
  }

  /** `Channel.Update`: an empty key list is taken for "not provided" and the stored keys stay; the
      size is recomputed and statuses out of range are dropped. */
  function Persist(stored: Row, changed: Row): Row {
    var keys := if changed.keys != [] then changed.keys else stored.keys;
    Row(keys, |keys|, map i | i in changed.status && i < |keys| :: changed.status[i], changed.time, changed.reason)
  }

  // ---------------------------------------------------------------- actions

  function DisableKey(row: Row, i: int): Row {
    if i < 0 || i >= row.size then row
    else Persist(row, row.(status := row.status[i := MANUALLY_DISABLED]))
  }

  function EnableKey(row: Row, i: int): Row {
    if i < 0 || i >= row.size then row
    else Persist(row, row.(status := row.status - {i}, time := row.time - {i}, reason := row.reason - {i}))
  }

  function EnableAll(row: Row): Row {
    Persist(row, row.(status := map[], time := map[], reason := map[]))
  }

  function DisableAll(row: Row): Row {
    if forall i | 0 <= i < row.size :: StatusOf(row, i) != ENABLED then row
    else
      Persist(row, row.(status := row.status +
        map i | 0 <= i < row.size && StatusOf(row, i) == ENABLED :: MANUALLY_DISABLED))
  }

  /** Append key `i` of `row`, with its entries at the next new index.  `tidy` forgets the time and
      reason of a key that is enabled. */
  function Extend(built: Row, row: Row, i: nat, tidy: bool): Row
    requires i < |row.keys|
  {
    var n, s := |built.keys|, StatusOf(row, i);
    Row(built.keys + [row.keys[i]],
        n + 1,
        if s != ENABLED then built.status[n := s] else built.status,
        if i in row.time && (tidy ==> s != ENABLED) then built.time[n := row.time[i]] else built.time,
        if i in row.reason && (tidy ==> s != ENABLED) then built.reason[n := row.reason[i]] else built.reason)
  }

  /** The first `n` keys without the dropped ones, re-indexed. */
  function Rebuild(row: Row, n: nat, drop: set<int>, tidy: bool): Row
    requires n <= |row.keys|
  {
    if n == 0 then Row([], 0, map[], map[], map[])
    else
      var built := Rebuild(row, n - 1, drop, tidy);
      if n - 1 in drop then built else Extend(built, row, n - 1, tidy)
  }

  function DeleteKey(row: Row, i: int): Row {
    if i < 0 || i >= row.size then row
    else
      var built := Rebuild(row, |row.keys|, {i}, false);
      if built.keys == [] then row else Persist(row, built)
  }

  function AutoDisabled(row: Row): set<int> {
    set i | 0 <= i < |row.keys| && StatusOf(row, i) == AUTO_DISABLED
  }

  function DeleteDisabledKeys(row: Row): Row {
    if AutoDisabled(row) == {} then row
    else Persist(row, Rebuild(row, |row.keys|, AutoDisabled(row), true))
  }

  /** The channel as the handler updates it; the receiver is the stored row. */
  class Channel {
    var keys: seq<string>
    var size: int
    var status: map<int, int>
    var time: map<int, int>
    var reason: map<int, string>

    function Stored(): Row
      reads this
    {
      Row(keys, size, status, time, reason)
    }

    method Store(changed: Row)
      modifies this
      ensures Stored() == Persist(old(Stored()), changed)
      ensures keys == (if changed.keys == [] then old(keys) else changed.keys) && size == |keys|
      ensures forall i :: i in status <==> i in changed.status && i < size
      ensures forall i :: i in status ==> status[i] == changed.status[i]
      ensures time == changed.time && reason == changed.reason
    {
      if changed.keys != [] {
        keys := changed.keys;
      }
      size := |keys|;
      status := map i | i in changed.status && i < size :: changed.status[i];
      time, reason := changed.time, changed.reason;
    }

    /** Action `disable_all_keys`. */
    method DisableAllKeys() returns (disabled: nat)
      modifies this
      ensures Stored() == DisableAll(old(Stored()))
      ensures disabled == 0 <==> forall i | 0 <= i < old(size) :: StatusOf(old(Stored()), i) != ENABLED
    {
      var list := status;
      disabled := 0;
      for i := 0 to if size < 0 then 0 else size
        invariant forall k :: k in list <==> k in status || 0 <= k < i
        invariant forall k :: k in list ==>
                    list[k] == if 0 <= k < i && StatusOf(Stored(), k) == ENABLED then MANUALLY_DISABLED
                        else StatusOf(Stored(), k)
        invariant disabled == 0 <==> forall k | 0 <= k < i :: StatusOf(Stored(), k) != ENABLED
        invariant Stored() == old(Stored())
      {
        if (if i in list then list[i] else ENABLED) == ENABLED {
          list := list[i := MANUALLY_DISABLED];
          disabled := disabled + 1;
        }
      }
      if disabled == 0 {
        return;
      }
      assert list == status + map i | 0 <= i < size && StatusOf(Stored(), i) == ENABLED :: MANUALLY_DISABLED;
      Store(Row(keys, size, list, time, reason));
    }

    /** Action `delete_key`. */
    method DeleteOneKey(keyIndex: int) returns (ok: bool)
      modifies this
      ensures Stored() == DeleteKey(old(Stored()), keyIndex)
      ensures Valid(old(Stored())) ==> (ok <==> 0 <= keyIndex < old(size) && old(size) > 1)
    {
      ghost var before := Stored();
      if keyIndex < 0 || keyIndex >= size {
        return false;
      }
      var remaining: seq<string>, newStatus: map<int, int>, newTime: map<int, int>, newReason: map<int, string> := [],
          map[], map[], map[];
      var newIndex := 0;
      for i := 0 to |keys|
        invariant Stored() == old(Stored()) && newIndex == |remaining|
        invariant Row(remaining, newIndex, newStatus, newTime, newReason) == Rebuild(Stored(), i, {keyIndex}, false)
      {
        if i == keyIndex {
          continue;
        }
        remaining := remaining + [keys[i]];
        if i in status && status[i] != ENABLED {
          newStatus := newStatus[newIndex := status[i]];
        }
        if i in time {
          newTime := newTime[newIndex := time[i]];
        }
        if i in reason {
          newReason := newReason[newIndex := reason[i]];
        }
        newIndex := newIndex + 1;
      }
      if Valid(before) {
        RebuildView(before, |keys|, {keyIndex}, false);
        WithoutOne(View(before), |keys|, keyIndex);
      }
      if |remaining| == 0 {
        return false;
      }
      Store(Row(remaining, |remaining|, newStatus, newTime, newReason));
      return true;
    }

    /** Action `delete_disabled_keys`. */
    method DeleteAutoDisabledKeys() returns (deleted: nat)
      modifies this
      ensures Stored() == DeleteDisabledKeys(old(Stored()))
      ensures deleted == |old(keys)| - |Survivors(View(old(Stored())))|
    {
      ghost var drop := AutoDisabled(Stored());
      var remaining: seq<string>, newStatus: map<int, int>, newTime: map<int, int>, newReason: map<int, string> := [],
          map[], map[], map[];
      var newIndex := 0;
      deleted := 0;
      for i := 0 to |keys|
        invariant Stored() == old(Stored()) && newIndex == |remaining| && deleted == i - newIndex
        invariant deleted == 0 <==> forall k | 0 <= k < i :: k !in drop
        invariant Row(remaining, newIndex, newStatus, newTime, newReason) == Rebuild(Stored(), i, drop, true)
      {
        var s := if i in status then status[i] else ENABLED;
        assert i in drop <==> s == AUTO_DISABLED;
        if s == AUTO_DISABLED {
          deleted := deleted + 1;
        } else {
          remaining := remaining + [keys[i]];
          if s != ENABLED {
            newStatus := newStatus[newIndex := s];
            if i in time {
              newTime := newTime[newIndex := time[i]];
            }
            if i in reason {
              newReason := newReason[newIndex := reason[i]];
            }
          }
          newIndex := newIndex + 1;
        }
      }
      RebuildView(Stored(), |keys|, drop, true);
      WithoutSurvivors(Stored(), |keys|);
      assert View(Stored())[..|keys|] == View(Stored());
      if deleted == 0 {
        assert drop == {};
        return;
      }
      assert drop != {};
      Store(Row(remaining, |remaining|, newStatus, newTime, newReason));
    }
  }

  // ---------------------------------------------------------------- what a deletion shows

  /** The shown keys below `n` without the dropped indices. */
  function Without<T>(view: seq<T>, n: nat, drop: set<int>): seq<T>
    requires n <= |view|
  {
    if n == 0 then [] else Without(view, n - 1, drop) + if n - 1 in drop then [] else [view[n - 1]]
  }

  lemma ExtendView(built: Row, row: Row, i: nat, tidy: bool)
    requires Valid(built) && i < |row.keys|
    ensures Valid(Extend(built, row, i, tidy))
    ensures View(Extend(built, row, i, tidy)) == View(built) + [ShownAt(row, i)]
  {
    var e := Extend(built, row, i, tidy);
    forall j | 0 <= j < |e.keys|
      ensures ShownAt(e, j) == (View(built) + [ShownAt(row, i)])[j]
    {
    }
  }

  /** Rebuilding keeps the order of the surviving keys and all that is shown about them. */
  lemma {:induction false} RebuildView(row: Row, n: nat, drop: set<int>, tidy: bool)
    requires n <= |row.keys|
    ensures Valid(Rebuild(row, n, drop, tidy))
    ensures View(Rebuild(row, n, drop, tidy)) == Without(View(row), n, drop)
  {
    hide Extend, ShownAt;
    if n > 0 {
      RebuildView(row, n - 1, drop, tidy);
      if n - 1 !in drop {
        ExtendView(Rebuild(row, n - 1, drop, tidy), row, n - 1, tidy);
      }
    }
  }

  lemma PersistValid(stored: Row, changed: Row)
    requires Valid(changed) && changed.keys != []
    ensures Persist(stored, changed) == changed
  {
    assert (map i | i in changed.status && i < |changed.keys| :: changed.status[i]) == changed.status;
  }

  lemma {:induction false} WithoutOne<T>(view: seq<T>, n: nat, i: nat)
    requires n <= |view|
    ensures Without(view, n, {i}) == if i < n then view[..i] + view[i + 1..n] else view[..n]
  {
    if n > 0 {
      WithoutOne(view, n - 1, i);
    }
  }

  /** `delete_key` removes exactly the key at its index; it is refused for the last key. */
  lemma DeleteKeyView(row: Row, i: nat)
    requires Valid(row) && i < row.size
    ensures row.size > 1 ==> View(DeleteKey(row, i)) == View(row)[..i] + View(row)[i + 1..]
    ensures row.size == 1 ==> DeleteKey(row, i) == row
    ensures Valid(DeleteKey(row, i))
  {
    var n := |row.keys|;
    RebuildView(row, n, {i}, false);
    WithoutOne(View(row), n, i);
    var built := Rebuild(row, n, {i}, false);
    assert |View(built)| == |built.keys|;
    if n > 1 {
      PersistValid(row, built);
      assert View(row)[i + 1..n] == View(row)[i + 1..];
    }
  }

  function Survivors(view: seq<Shown>): seq<Shown> {
    if view == [] then []
    else Survivors(view[..|view| - 1]) + if view[|view| - 1].status == AUTO_DISABLED then [] else [view[|view| - 1]]
  }

  /** The survivors are the keys whose status is not 3, and they stay in order. */
  lemma {:induction false} SurvivorsLaw(a: seq<Shown>, b: seq<Shown>)
    ensures forall x :: x in Survivors(a) <==> x in a && x.status != 3
    ensures Survivors(a + b) == Survivors(a) + Survivors(b)
    decreases |b|, |a|
  {
    if b != [] {
      var front := b[..|b| - 1];
      SurvivorsLaw(a, front);
      assert (a + b)[..|a + b| - 1] == a + front;
    } else {
      assert a + b == a;
      if a != [] {
        SurvivorsLaw(a[..|a| - 1], []);
        assert a == a[..|a| - 1] + [a[|a| - 1]];
      }
    }
  }

  lemma {:induction false} WithoutSurvivors(row: Row, n: nat)
    requires n <= |row.keys|
    ensures Without(View(row), n, AutoDisabled(row)) == Survivors(View(row)[..n])
  {
    if n > 0 {
      WithoutSurvivors(row, n - 1);
      assert View(row)[..n][..n - 1] == View(row)[..n - 1];
    }
  }

  lemma {:induction false} NoneDisabled(view: seq<Shown>)
    requires forall i :: 0 <= i < |view| ==> view[i].status != AUTO_DISABLED
    ensures Survivors(view) == view
  {
    if view != [] {
      NoneDisabled(view[..|view| - 1]);
    }
  }

  /** `delete_disabled_keys` keeps exactly the keys that are not auto-disabled, in order and with all
      that is shown about them, provided one is left. */
  lemma DeleteDisabledView(row: Row)
    requires Valid(row) && Survivors(View(row)) != []
    ensures View(DeleteDisabledKeys(row)) == Survivors(View(row)) && Valid(DeleteDisabledKeys(row))
  {
    var n := |row.keys|;
    assert View(row)[..n] == View(row);
    if AutoDisabled(row) == {} {
      forall i | 0 <= i < n
        ensures View(row)[i].status != AUTO_DISABLED
      {
        assert i !in AutoDisabled(row);
      }
      NoneDisabled(View(row));
    } else {
      var built := Rebuild(row, n, AutoDisabled(row), true);
      RebuildView(row, n, AutoDisabled(row), true);
      WithoutSurvivors(row, n);
      assert |View(built)| == |built.keys|;
      PersistValid(row, built);
    }
  }

  /** `delete_key` for every auto-disabled key below `n`, highest index first. */
  function DeleteEach(row: Row, n: nat): Row
    decreases n
  {
    if n == 0 then row
    else DeleteEach(if StatusOf(row, n - 1) == AUTO_DISABLED then DeleteKey(row, n - 1) else row, n - 1)
  }

  lemma ViewAt(row: Row, i: nat)
    requires i < |row.keys|
    ensures |View(row)| == |row.keys| && View(row)[i].status == StatusOf(row, i)
  {
  }

  lemma SurvivorsStep(view: seq<Shown>, n: nat)
    requires 0 < n <= |view|
    ensures view[n - 1].status == AUTO_DISABLED ==> Survivors(view[..n]) == Survivors(view[..n - 1])
    ensures view[n - 1].status != AUTO_DISABLED ==>
              Survivors(view[..n]) + view[n..] == Survivors(view[..n - 1]) + view[n - 1..]
  {
    assert view[..n][..n - 1] == view[..n - 1];
    assert view[n - 1..] == [view[n - 1]] + view[n..];
  }

  lemma {:induction false} DeleteEachView(row: Row, n: nat)
    requires Valid(row) && n <= row.size && Survivors(View(row)[..n]) + View(row)[n..] != []
    ensures View(DeleteEach(row, n)) == Survivors(View(row)[..n]) + View(row)[n..]
    ensures Valid(DeleteEach(row, n))
    decreases n
  {
    hide View, DeleteKey, StatusOf, Survivors;
    var view := View(row);
    if n > 0 {
      ViewAt(row, n - 1);
      SurvivorsStep(view, n);
      if StatusOf(row, n - 1) == AUTO_DISABLED {
        var row' := DeleteKey(row, n - 1);
        DeleteKeyView(row, n - 1);
        LastDisabled(view, n);
        assert View(row') == view[..n - 1] + view[n..];
        assert View(row')[..n - 1] == view[..n - 1] && View(row')[n - 1..] == view[n..];
        ViewSize(row');
        DeleteEachView(row', n - 1);
      } else {
        DeleteEachView(row, n - 1);
      }
    } else {
      assert view[0..] == view && view[..0] == [];
      SurvivorsOfNone();
    }
  }

  lemma ViewSize(row: Row)
    ensures |View(row)| == |row.keys|
  {
  }

  lemma SurvivorsOfNone()
    ensures Survivors([]) == []
  {
  }

  lemma LastDisabled(view: seq<Shown>, n: nat)
    requires 0 < n <= |view| && view[n - 1].status == AUTO_DISABLED && Survivors(view[..n]) + view[n..] != []
    ensures |view| > 1
  {
  }

  /** Deleting all auto-disabled keys at once shows the same as deleting them one by one from the
      highest index down, whenever a key is left. */
  lemma BatchEqualsOneByOne(row: Row)
    requires Valid(row) && Survivors(View(row)) != []
    ensures View(DeleteDisabledKeys(row)) == View(DeleteEach(row, row.size)) == Survivors(View(row))
    ensures Valid(DeleteDisabledKeys(row)) && Valid(DeleteEach(row, row.size))
  {
    assert View(row)[..row.size] == View(row) && View(row)[row.size..] == [];
    DeleteDisabledView(row);
    DeleteEachView(row, row.size);
  }

  /** If every key is auto-disabled, the batch empties the list in memory, the update takes the empty
      list for "not provided", and all keys stay and come back enabled. */
  lemma AllDisabledComeBack(row: Row)
    requires Valid(row) && row.keys != [] && Survivors(View(row)) == []
    ensures var after := DeleteDisabledKeys(row);
            after.keys == row.keys && forall i :: 0 <= i < |row.keys| ==>
                  ShownAt(after, i) == Shown(row.keys[i], ENABLED, 0, "")
  {
    var n := |row.keys|;
    assert View(row)[..n] == View(row);
    if AutoDisabled(row) == {} {
      forall i | 0 <= i < n
        ensures View(row)[i].status != AUTO_DISABLED
      {
        assert i !in AutoDisabled(row);
      }
      NoneDisabled(View(row));
      assert false;
    }
    var built := Rebuild(row, n, AutoDisabled(row), true);
    RebuildView(row, n, AutoDisabled(row), true);
    WithoutSurvivors(row, n);
    assert |View(built)| == |built.keys|;
    assert built.keys == [];
  }

  lemma {:induction false} OneByOneLeavesLast(row: Row, n: nat)
    requires Valid(row) && 0 < row.size && n <= row.size
    requires forall i :: 0 <= i < n ==> StatusOf(row, i) == AUTO_DISABLED
    requires n > 0
    ensures DeleteEach(row, n).keys != [] && View(DeleteEach(row, n))[0].status == if n == row.size
            then AUTO_DISABLED else StatusOf(row, n)
    decreases n
  {
    hide DeleteKey;
    DeleteKeyView(row, n - 1);
    var row' := DeleteKey(row, n - 1);
    assert |View(row)| == |row.keys| && |View(row')| == |row'.keys|;
    if row.size == 1 {
      assert DeleteEach(row, n) == DeleteEach(row', 0) == row;
      assert View(row)[0].status == StatusOf(row, 0);
    } else {
      forall i | 0 <= i < n - 1
        ensures StatusOf(row', i) == AUTO_DISABLED
      {
        assert View(row')[i] == View(row)[i];
      }
      if n == 1 {
        assert View(row')[0] == View(row)[1];
      } else {
        if n < row.size {
          assert View(row')[n - 1] == View(row)[n];
        }
        OneByOneLeavesLast(row', n - 1);
      }
    }
  }

  lemma {:induction false} SurvivorsNone(view: seq<Shown>, i: nat)
    requires i < |view| && Survivors(view) == []
    ensures view[i].status == AUTO_DISABLED
  {
    var k := |view| - 1;
    if i < k {
      SurvivorsNone(view[..k], i);
    }
  }

  /** Exactly when the batch agrees with deleting one by one: unless every key is auto-disabled. */
  lemma BatchEqualsOneByOneIff(row: Row)
    requires Valid(row)
    ensures View(DeleteDisabledKeys(row)) == View(DeleteEach(row, row.size))
            <==> row.keys == [] || exists i :: 0 <= i < |row.keys| && StatusOf(row, i) != AUTO_DISABLED
  {
    if row.keys == [] {
      assert AutoDisabled(row) == {};
    } else if Survivors(View(row)) != [] {
      BatchEqualsOneByOne(row);
      SurvivorExists(View(row));
      var i :| 0 <= i < |View(row)| && View(row)[i].status != AUTO_DISABLED;
      assert StatusOf(row, i) != AUTO_DISABLED;
    } else {
      forall i | 0 <= i < |row.keys|
        ensures StatusOf(row, i) == AUTO_DISABLED
      {
        SurvivorsNone(View(row), i);
      }
      AllDisabledComeBack(row);
      OneByOneLeavesLast(row, row.size);
      assert View(DeleteDisabledKeys(row))[0].status == ENABLED;
    }
  }

  lemma {:induction false} SurvivorExists(view: seq<Shown>)
    requires Survivors(view) != []
    ensures exists i :: 0 <= i < |view| && view[i].status != AUTO_DISABLED
  {
    var k := |view| - 1;
    if view[k].status == AUTO_DISABLED {
      SurvivorExists(view[..k]);
      var i :| 0 <= i < k && view[..k][i].status != AUTO_DISABLED;
      assert view[i].status != AUTO_DISABLED;
    }
  }

  /** Equal to the eye is not equal: `delete_key` carries along a time that an enabled key no longer
      shows, and disabling that key later brings it back; the batch has forgotten it. */
  lemma StaleTimeResurfaces()
    ensures var row := Row(["a", "b"], 2, map[1 := AUTO_DISABLED], map[0 := 7], map[]);
            var batch, each := DeleteDisabledKeys(row), DeleteEach(row, 2);
            && View(batch) == View(each)
            && View(DisableKey(batch, 0)) == [Shown("a", MANUALLY_DISABLED, 0, "")]
            && View(DisableKey(each, 0)) == [Shown("a", MANUALLY_DISABLED, 7, "")]
  {
    var row := Row(["a", "b"], 2, map[1 := AUTO_DISABLED], map[0 := 7], map[]);
    assert AutoDisabled(row) == {1};
    assert Rebuild(row, 1, {1}, true) == Row(["a"], 1, map[], map[], map[]);
    assert Rebuild(row, 2, {1}, true) == Row(["a"], 1, map[], map[], map[]);
    assert Rebuild(row, 1, {1}, false) == Row(["a"], 1, map[], map[0 := 7], map[]);
    assert Rebuild(row, 2, {1}, false) == Row(["a"], 1, map[], map[0 := 7], map[]);
    var batch, each := DeleteDisabledKeys(row), DeleteKey(row, 1);
    assert batch == Row(["a"], 1, map[], map[], map[]);
    assert each == Row(["a"], 1, map[], map[0 := 7], map[]);
    assert DeleteEach(row, 2) == DeleteEach(each, 1) == DeleteEach(each, 0) == each;
    assert DisableKey(batch, 0) == Row(["a"], 1, map[0 := MANUALLY_DISABLED], map[], map[]);
    assert DisableKey(each, 0) == Row(["a"], 1, map[0 := MANUALLY_DISABLED], map[0 := 7], map[]);
  }

  // ---------------------------------------------------------------- what a deletion leaves unseen

  datatype Option<T> = None | Some(value: T)

  /** All the row holds about one key, shown or not. */
  datatype Cell = Cell(key: string, status: int, time: Option<int>, reason: Option<string>)

  function CellAt(row: Row, i: nat): Cell
    requires i < |row.keys|
  {
    Cell(row.keys[i], StatusOf(row, i),
         if i in row.time then Some(row.time[i]) else None,
         if i in row.reason then Some(row.reason[i]) else None)
  }

  function Cells(row: Row): seq<Cell> {
    seq(|row.keys|, i requires 0 <= i < |row.keys| => CellAt(row, i))
  }

  /** What the batch keeps of a cell. */
  function Tidy(c: Cell): Cell {
    if c.status == ENABLED then c.(time := None, reason := None) else c
  }

  function TidyAll(cells: seq<Cell>): seq<Cell> {
    seq(|cells|, i requires 0 <= i < |cells| => Tidy(cells[i]))
  }

  /** No entry spells out that a key is enabled. */
  ghost predicate Neat(row: Row) {
    forall i :: i in row.status ==> row.status[i] != ENABLED
  }

  lemma SameEntries<V>(a: map<int, V>, b: map<int, V>, size: int)
    requires (forall i :: i in a ==> 0 <= i < size) && (forall i :: i in b ==> 0 <= i < size)
    requires forall i :: 0 <= i < size ==> (i in a <==> i in b) && (i in a ==> a[i] == b[i])
    ensures a == b
  {
    forall i ensures i in a <==> i in b {
      if 0 <= i < size { assert i in a <==> i in b; }
    }
    assert a.Keys == b.Keys;
    forall i | i in a ensures a[i] == b[i] {
    }
    assert a == b;
  }

  /** Neat rows are determined by their cells. */
  lemma CellsDetermine(a: Row, b: Row)
    requires Valid(a) && Valid(b) && Neat(a) && Neat(b) && Cells(a) == Cells(b)
    ensures a == b
  {
    assert |Cells(a)| == |a.keys| && |Cells(b)| == |b.keys|;
    forall i | 0 <= i < |a.keys|
      ensures a.keys[i] == b.keys[i]
      ensures i in a.status <==> i in b.status
      ensures i in a.time <==> i in b.time
      ensures i in a.reason <==> i in b.reason
      ensures i in a.status ==> a.status[i] == b.status[i]
      ensures i in a.time ==> a.time[i] == b.time[i]
      ensures i in a.reason ==> a.reason[i] == b.reason[i]
    {
      assert Cells(a)[i] == CellAt(a, i) == Cells(b)[i] == CellAt(b, i);
    }
    assert a.keys == b.keys;
    SameEntries(a.status, b.status, a.size);
    SameEntries(a.time, b.time, a.size);
    SameEntries(a.reason, b.reason, a.size);
  }

  lemma ExtendCells(built: Row, row: Row, i: nat, tidy: bool)
    requires Valid(built) && Neat(built) && i < |row.keys|
    ensures Valid(Extend(built, row, i, tidy)) && Neat(Extend(built, row, i, tidy))
    ensures Cells(Extend(built, row, i, tidy)) == Cells(built) + [if tidy then Tidy(CellAt(row, i)) else CellAt(row, i)]
  {
    var e := Extend(built, row, i, tidy);
    forall j | 0 <= j < |built.keys| ensures CellAt(e, j) == CellAt(built, j) {
    }
    assert CellAt(e, |built.keys|) == if tidy then Tidy(CellAt(row, i)) else CellAt(row, i);
  }

  lemma {:induction false} RebuildCells(row: Row, n: nat, drop: set<int>, tidy: bool)
    requires n <= |row.keys|
    ensures Valid(Rebuild(row, n, drop, tidy)) && Neat(Rebuild(row, n, drop, tidy))
    ensures Cells(Rebuild(row, n, drop, tidy)) == Without(if tidy then TidyAll(Cells(row)) else Cells(row), n, drop)
  {
    hide Extend, CellAt, Tidy;
    if n > 0 {
      RebuildCells(row, n - 1, drop, tidy);
      if n - 1 !in drop {
        ExtendCells(Rebuild(row, n - 1, drop, tidy), row, n - 1, tidy);
      }
    }
  }

  lemma DeleteKeyCells(row: Row, i: nat)
    requires Valid(row) && i < row.size && row.size > 1
    ensures Cells(DeleteKey(row, i)) == Cells(row)[..i] + Cells(row)[i + 1..]
    ensures Valid(DeleteKey(row, i)) && Neat(DeleteKey(row, i))
  {
    hide CellAt;
    var n := |row.keys|;
    RebuildCells(row, n, {i}, false);
    WithoutOne(Cells(row), n, i);
    var built := Rebuild(row, n, {i}, false);
    assert |Cells(built)| == |built.keys|;
    PersistValid(row, built);
    assert Cells(row)[i + 1..n] == Cells(row)[i + 1..];
  }

  /** What is dropped below `n` depends on nothing above. */
  lemma {:induction false} WithoutSame<T>(x: seq<T>, y: seq<T>, n: nat, d: set<int>, e: set<int>)
    requires n <= |x| && n <= |y| && x[..n] == y[..n] && forall i :: 0 <= i < n ==> (i in d <==> i in e)
    ensures Without(x, n, d) == Without(y, n, e)
  {
    if n > 0 {
      assert x[..n - 1] == x[..n][..n - 1] && y[..n - 1] == y[..n][..n - 1];
      assert x[n - 1] == x[..n][n - 1] && y[n - 1] == y[..n][n - 1];
      WithoutSame(x, y, n - 1, d, e);
    }
  }

  lemma OneDeleted(row: Row, n: nat)
    requires Valid(row) && 0 < n <= row.size && StatusOf(row, n - 1) == AUTO_DISABLED
    requires Without(Cells(row), n, AutoDisabled(row)) + Cells(row)[n..] != []
    ensures var row' := DeleteKey(row, n - 1);
            && Valid(row') && Neat(row') && row'.size == row.size - 1
            && Without(Cells(row'), n - 1, AutoDisabled(row')) == Without(Cells(row), n, AutoDisabled(row))
            && Cells(row')[n - 1..] == Cells(row)[n..]
  {
    hide CellAt, DeleteKey;
    var cells := Cells(row);
    assert |cells| == |row.keys| && n - 1 in AutoDisabled(row);
    assert n == 1 ==> Without(cells, n - 1, AutoDisabled(row)) == [];
    var row' := DeleteKey(row, n - 1);
    DeleteKeyCells(row, n - 1);
    var cells' := Cells(row');
    assert |cells'| == |row'.keys|;
    forall i | 0 <= i < n - 1 ensures i in AutoDisabled(row) <==> i in AutoDisabled(row') {
      assert cells'[i] == cells[i];
      CellStatus(row, i);
      CellStatus(row', i);
    }
    assert cells'[..n - 1] == cells[..n - 1] && cells'[n - 1..] == cells[n..];
    WithoutSame(cells', cells, n - 1, AutoDisabled(row'), AutoDisabled(row));
  }

  lemma {:induction false} DeleteEachCells(row: Row, n: nat)
    requires Valid(row) && n <= row.size && Without(Cells(row), n, AutoDisabled(row)) + Cells(row)[n..] != []
    ensures Cells(DeleteEach(row, n)) == Without(Cells(row), n, AutoDisabled(row)) + Cells(row)[n..]
    ensures Valid(DeleteEach(row, n))
    ensures Neat(row) || (exists i :: 0 <= i < n && StatusOf(row, i) == AUTO_DISABLED) ==> Neat(DeleteEach(row, n))
    decreases n
  {
    hide CellAt, DeleteKey, Neat;
    var cells := Cells(row);
    assert |cells| == |row.keys|;
    if n == 0 {
      assert cells[0..] == cells;
    } else if StatusOf(row, n - 1) == AUTO_DISABLED {
      OneDeleted(row, n);
      DeleteEachCells(DeleteKey(row, n - 1), n - 1);
    } else {
      assert n - 1 !in AutoDisabled(row);
      assert cells[n - 1..] == [cells[n - 1]] + cells[n..];
      DeleteEachCells(row, n - 1);
    }
  }

  lemma CellStatus(row: Row, i: nat)
    requires i < |row.keys|
    ensures |Cells(row)| == |row.keys| && Cells(row)[i].status == StatusOf(row, i) && Cells(row)[i] == CellAt(row, i)
  {
  }

  lemma {:induction false} WithoutEqual<T>(x: seq<T>, y: seq<T>, n: nat, d: set<int>)
    requires n <= |x| && n <= |y|
    ensures |Without(x, n, d)| == |Without(y, n, d)|
    ensures Without(x, n, d) == Without(y, n, d) <==> forall i :: 0 <= i < n && i !in d ==> x[i] == y[i]
  {
    if n > 0 {
      WithoutEqual(x, y, n - 1, d);
      var xs, ys := Without(x, n - 1, d), Without(y, n - 1, d);
      assert (forall i :: 0 <= i < n && i !in d ==> x[i] == y[i])
        <==> (forall i :: 0 <= i < n - 1 && i !in d ==> x[i] == y[i]) && (n - 1 !in d ==> x[n - 1] == y[n - 1]);
      if n - 1 in d {
        assert Without(x, n, d) == xs && Without(y, n, d) == ys;
      } else {
        assert Without(x, n, d) == xs + [x[n - 1]] && Without(y, n, d) == ys + [y[n - 1]];
        SameAppend(xs, ys, x[n - 1], y[n - 1]);
      }
    }
  }

  lemma SameAppend<T>(xs: seq<T>, ys: seq<T>, x: T, y: T)
    requires |xs| == |ys|
    ensures xs + [x] == ys + [y] <==> xs == ys && x == y
  {
    assert (xs + [x])[..|xs|] == xs && (ys + [y])[..|ys|] == ys;
    assert (xs + [x])[|xs|] == x && (ys + [y])[|ys|] == y;
  }

  /** The two ways of deleting, cell by cell. */
  lemma BothDeletions(row: Row, i: nat)
    requires Valid(row) && i < |row.keys| && StatusOf(row, i) != AUTO_DISABLED && AutoDisabled(row) != {}
    ensures var batch, each := DeleteDisabledKeys(row), DeleteEach(row, row.size);
            && Valid(batch) && Valid(each) && Neat(batch) && Neat(each)
            && Cells(batch) == Without(TidyAll(Cells(row)), |row.keys|, AutoDisabled(row))
            && Cells(each) == Without(Cells(row), |row.keys|, AutoDisabled(row))
  {
    hide CellAt, Rebuild, DeleteEach, Tidy;
    var n, drop := |row.keys|, AutoDisabled(row);
    assert |Cells(row)| == n && i !in drop;
    WithoutAt(Cells(row), n, drop, i);
    WithoutEqual(Cells(row), TidyAll(Cells(row)), n, drop);
    DeleteEachCells(row, n);
    var built := Rebuild(row, n, drop, true);
    RebuildCells(row, n, drop, true);
    assert |Cells(built)| == |built.keys|;
    PersistValid(row, built);
    assert Cells(row)[n..] == [];
    var k :| k in drop;
    assert 0 <= k < n && StatusOf(row, k) == AUTO_DISABLED;
  }

  /** Where a survivor ends up. */
  lemma {:induction false} WithoutAt<T>(x: seq<T>, n: nat, d: set<int>, i: nat)
    requires i < n <= |x| && i !in d
    ensures var j := |Without(x, i, d)|; j < |Without(x, n, d)| && Without(x, n, d)[j] == x[i]
  {
    if n - 1 > i {
      WithoutAt(x, n - 1, d, i);
    }
  }

  /** Key `i` is enabled and still carries a time or a reason from when it was disabled, as the
      automatic re-enabling leaves them. */
  predicate Leftover(row: Row, i: int) {
    StatusOf(row, i) == ENABLED && (i in row.time || i in row.reason)
  }

  /** Beyond what is shown: when something is deleted and something is left, the two ways of deleting
      leave the very same row if and only if no enabled key has leftovers. */
  lemma SameRowIff(row: Row)
    requires Valid(row) && AutoDisabled(row) != {}
    requires exists i :: 0 <= i < |row.keys| && StatusOf(row, i) != AUTO_DISABLED
    ensures DeleteDisabledKeys(row) == DeleteEach(row, row.size)
            <==> forall i :: 0 <= i < |row.keys| ==> !Leftover(row, i)
  {
    hide DeleteDisabledKeys, DeleteEach;
    var n, drop := |row.keys|, AutoDisabled(row);
    var k :| 0 <= k < |row.keys| && StatusOf(row, k) != AUTO_DISABLED;
    BothDeletions(row, k);
    var cells := Cells(row);
    WithoutEqual(TidyAll(cells), cells, n, drop);
    forall i | 0 <= i < n ensures Leftover(row, i) <==> TidyAll(cells)[i] != cells[i] {
      CellStatus(row, i);
    }
    if Cells(DeleteDisabledKeys(row)) == Cells(DeleteEach(row, row.size)) {
      CellsDetermine(DeleteDisabledKeys(row), DeleteEach(row, row.size));
    }
  }

  /** A leftover that disabling the key would show. */
  predicate Telling(row: Row, i: int) {
    StatusOf(row, i) == ENABLED && ((i in row.time && row.time[i] != 0) || (i in row.reason && row.reason[i] != ""))
  }

  /** What is shown about a key once it is disabled by hand. */
  function Disabled(c: Cell): Shown {
    Shown(c.key, MANUALLY_DISABLED, if c.time.Some? then c.time.value else 0, if c.reason.Some? then c.reason.value
        else "")
  }

  function ShownOf(c: Cell): Shown {
    if c.status == ENABLED then Shown(c.key, ENABLED, 0, "") else Disabled(c).(status := c.status)
  }

  lemma DisableShows(row: Row, j: int)
    requires Valid(row)
    ensures 0 <= j < |row.keys| ==>
              View(DisableKey(row, j)) ==
              seq(|row.keys|, i requires 0 <= i < |row.keys| => if i == j then Disabled(CellAt(row, i))
                  else ShownOf(CellAt(row, i)))
    ensures !(0 <= j < |row.keys|) ==> View(DisableKey(row, j)) == View(row)
  {
    if 0 <= j < |row.keys| {
      var row' := row.(status := row.status[j := MANUALLY_DISABLED]);
      PersistValid(row, row');
      forall i | 0 <= i < |row.keys|
        ensures ShownAt(row', i) == if i == j then Disabled(CellAt(row, i)) else ShownOf(CellAt(row, i))
      {
      }
    }
  }

  /** And the difference is visible: disabling some key tells the two rows apart if and only if an
      enabled key has a leftover time other than zero or a leftover reason other than the empty one. */
  lemma LaterDisableTellsIff(row: Row)
    requires Valid(row) && AutoDisabled(row) != {}
    requires exists i :: 0 <= i < |row.keys| && StatusOf(row, i) != AUTO_DISABLED
    ensures (exists j :: View(DisableKey(DeleteDisabledKeys(row), j)) != View(DisableKey(DeleteEach(row, row.size), j)))
            <==> exists i :: 0 <= i < |row.keys| && Telling(row, i)
  {
    hide DeleteDisabledKeys, DeleteEach, DisableKey, View;
    var batch, each := DeleteDisabledKeys(row), DeleteEach(row, row.size);
    var n, drop, cells := |row.keys|, AutoDisabled(row), Cells(row);
    var k :| 0 <= k < n && StatusOf(row, k) != AUTO_DISABLED;
    BothDeletions(row, k);
    WithoutEqual(TidyAll(cells), cells, n, drop);
    assert |Cells(batch)| == |batch.keys| && |Cells(each)| == |each.keys|;
    if i :| 0 <= i < n && Telling(row, i) {
      CellStatus(row, i);
      assert i !in drop;
      WithoutAt(cells, n, drop, i);
      WithoutAt(TidyAll(cells), n, drop, i);
      WithoutEqual(TidyAll(cells), cells, i, drop);
      var j := |Without(cells, i, drop)|;
      CellStatus(batch, j);
      CellStatus(each, j);
      DisableShows(batch, j);
      DisableShows(each, j);
      assert Disabled(CellAt(batch, j)) != Disabled(CellAt(each, j));
      assert View(DisableKey(batch, j))[j] != View(DisableKey(each, j))[j];
    } else {
      QuietEverywhere(row, n);
      forall j ensures View(DisableKey(batch, j)) == View(DisableKey(each, j)) {
        SameWhenQuiet(batch, each, j);
      }
    }
  }

  predicate Quiet(c: Cell, d: Cell) {
    Disabled(c) == Disabled(d) && ShownOf(c) == ShownOf(d)
  }

  lemma {:induction false} QuietEverywhere(row: Row, n: nat)
    requires n <= |row.keys| && forall i :: 0 <= i < |row.keys| ==> !Telling(row, i)
    ensures var x, y := Without(TidyAll(Cells(row)), n, AutoDisabled(row)), Without(Cells(row), n, AutoDisabled(row));
            |x| == |y| && forall j :: 0 <= j < |x| ==> Quiet(x[j], y[j])
  {
    if n > 0 {
      QuietEverywhere(row, n - 1);
      CellStatus(row, n - 1);
      assert !Telling(row, n - 1);
      assert Quiet(Tidy(CellAt(row, n - 1)), CellAt(row, n - 1));
    }
  }

  lemma SameWhenQuiet(a: Row, b: Row, j: int)
    requires Valid(a) && Valid(b) && |Cells(a)| == |Cells(b)| && forall i :: 0 <= i < |Cells(a)| ==>
               Quiet(Cells(a)[i], Cells(b)[i])
    ensures View(DisableKey(a, j)) == View(DisableKey(b, j))
  {
    hide DisableKey;
    DisableShows(a, j);
    DisableShows(b, j);
    assert |a.keys| == |b.keys|;
    forall i | 0 <= i < |a.keys| ensures Quiet(CellAt(a, i), CellAt(b, i)) && ShownAt(a, i) == ShownAt(b, i) {
      CellStatus(a, i);
      CellStatus(b, i);
      assert Quiet(Cells(a)[i], Cells(b)[i]);
    }
    assert View(a) == View(b);
  }

  lemma TogglesKeepValid(row: Row, i: int)
    requires Valid(row)
    ensures Valid(DisableKey(row, i)) && Valid(EnableKey(row, i)) && Valid(EnableAll(row)) && Valid(DisableAll(row))
  {
  }

  /** What is shown of a key: enabled (1) unless a status is stored, and a stored time and reason only if it is not. */
  lemma ViewLaw(row: Row, j: nat)
    requires j < |row.keys|
    ensures |View(row)| == |row.keys| && View(row)[j].key == row.keys[j]
    ensures View(row)[j].status == if j in row.status then row.status[j] else 1
    ensures View(row)[j].status == 1 ==> View(row)[j].time == 0 && View(row)[j].reason == ""
    ensures View(row)[j].status != 1 ==>
              && View(row)[j].time == (if j in row.time then row.time[j] else 0)
              && View(row)[j].reason == if j in row.reason then row.reason[j] else ""
  {
  }

  /** A key disabled by hand (2), with the time and reason that may still be stored for it. */
  function ByHand(row: Row, j: nat): Shown
    requires j < |row.keys|
  {
    Shown(row.keys[j], 2, if j in row.time then row.time[j] else 0, if j in row.reason then row.reason[j] else "")
  }

  /** What each of the toggles shows afterwards: disabling a key by hand changes that key alone, and so does enabling
      it, which also forgets its time and reason; enabling all shows every key as new; disabling all changes the
      enabled keys and leaves those that were disabled as they were. */
  lemma TogglesShow(row: Row, i: int)
    requires Valid(row)
    ensures !(0 <= i < |row.keys|) ==> DisableKey(row, i) == row && EnableKey(row, i) == row
    ensures 0 <= i < |row.keys| ==>
              && View(DisableKey(row, i)) == View(row)[i := ByHand(row, i)]
              && View(EnableKey(row, i)) == View(row)[i := Shown(row.keys[i], 1, 0, "")]
              && View(DisableKey(EnableKey(row, i), i)) == View(row)[i := Shown(row.keys[i], 2, 0, "")]
    ensures |View(EnableAll(row))| == |View(DisableAll(row))| == |row.keys|
    ensures forall j :: 0 <= j < |row.keys| ==>
              && View(EnableAll(row))[j] == Shown(row.keys[j], 1, 0, "")
              && View(DisableAll(row))[j] == if View(row)[j].status == 1 then ByHand(row, j) else View(row)[j]
  {
    if 0 <= i < |row.keys| {
      KeyToggleShows(row, i);
      var enabled := EnableKey(row, i);
      KeyToggleShows(enabled, i);
      assert ByHand(enabled, i) == Shown(row.keys[i], 2, 0, "");
      hide DisableKey, EnableKey;
      assert View(DisableKey(enabled, i)) == View(row)[i := Shown(row.keys[i], 2, 0, "")];
    }
    AllTogglesShow(row);
  }

  lemma KeyToggleShows(row: Row, i: nat)
    requires Valid(row) && i < |row.keys|
    ensures View(DisableKey(row, i)) == View(row)[i := ByHand(row, i)]
    ensures var r := EnableKey(row, i);
            && View(r) == View(row)[i := Shown(row.keys[i], 1, 0, "")]
            && Valid(r) && r.keys == row.keys && i !in r.time && i !in r.reason
  {
    TogglesKeepValid(row, i);
    var d, e := DisableKey(row, i), EnableKey(row, i);
    assert d.keys == row.keys && e.keys == row.keys;
    forall j | 0 <= j < |row.keys|
      ensures ShownAt(d, j) == if j == i then ByHand(row, i) else ShownAt(row, j)
      ensures ShownAt(e, j) == if j == i then Shown(row.keys[i], 1, 0, "") else ShownAt(row, j)
    {
    }
  }

  lemma AllTogglesShow(row: Row)
    requires Valid(row)
    ensures |View(EnableAll(row))| == |View(DisableAll(row))| == |row.keys|
    ensures forall j :: 0 <= j < |row.keys| ==>
              && View(EnableAll(row))[j] == Shown(row.keys[j], 1, 0, "")
              && View(DisableAll(row))[j] == if View(row)[j].status == 1 then ByHand(row, j) else View(row)[j]
  {
    var all := DisableAll(row);
    assert all.keys == row.keys && all.time == row.time && all.reason == row.reason;
    forall j | 0 <= j < |row.keys|
      ensures ShownAt(all, j) == if ShownAt(row, j).status == 1 then ByHand(row, j) else ShownAt(row, j)
    {
    }
  }

  /** Every action keeps size and map domains in step with the keys. */
  lemma ActionsKeepValid(row: Row, i: int)
    requires Valid(row)
    ensures Valid(DisableKey(row, i)) && Valid(EnableKey(row, i)) && Valid(EnableAll(row)) && Valid(DisableAll(row))
    ensures Valid(DeleteKey(row, i)) && Valid(DeleteDisabledKeys(row))
  {
    hide DisableKey, EnableKey, EnableAll, DisableAll, StatusOf;
    TogglesKeepValid(row, i);
    if 0 <= i < row.size {
      DeleteKeyView(row, i);
    }
    var built := Rebuild(row, |row.keys|, AutoDisabled(row), true);
    RebuildView(row, |row.keys|, AutoDisabled(row), true);
  }

  // ---------------------------------------------------------------- pages of the listing

  const DEFAULT_PAGE_SIZE := 50

  /** The page size in force: a request for none, or for less, gets the default. */
  function PageSize(requested: int): (size: int)
    ensures size > 0 && size == if requested <= 0 then 50 else requested
  {
    if requested <= 0 then DEFAULT_PAGE_SIZE else requested
  }

  function TotalPages(total: nat, size: int): (pages: int)
    requires size > 0
    ensures pages >= 1
  {
    var pages := (total + size - 1) / size;
    if pages == 0 then 1 else pages
  }

  /** The page answered for a request: pages below 1 and above the last are clamped. */
  function PageNumber(total: nat, size: int, requested: int): (page: int)
    requires size > 0
    ensures 1 <= page <= TotalPages(total, size)
    ensures 1 <= requested <= TotalPages(total, size) ==> page == requested
    ensures requested <= 0 ==> page == 1
    ensures requested > TotalPages(total, size) ==> page == TotalPages(total, size)
  {
    var page := if requested <= 0 then 1 else requested;
    if page > TotalPages(total, size) then TotalPages(total, size) else page
  }

  /** `get_key_status` paging over the filtered list. */
  function Page(list: seq<Shown>, size: int, requested: int): seq<Shown>
    requires size > 0
  {
    var start := (PageNumber(|list|, size, requested) - 1) * size;
    var end := if start + size > |list| then |list| else start + size;
    if 0 <= start < |list| then list[start..end] else []
  }

  function Pages(list: seq<Shown>, size: int, k: nat): seq<Shown>
    requires size > 0
  {
    if k == 0 then [] else Pages(list, size, k - 1) + Page(list, size, k)
  }

  lemma PageSlice(list: seq<Shown>, size: int, k: int, start: int)
    requires size > 0 && 1 <= k <= TotalPages(|list|, size) && start == (k - 1) * size
    ensures start >= 0
    ensures Page(list, size, k) ==
            if start >= |list| then [] else list[start..if start + size > |list| then |list| else start + size]
  {
    hide TotalPages;
    assert PageNumber(|list|, size, k) == k;
    NonNegative(k - 1, size);
  }

  lemma NonNegative(k: int, size: int)
    requires k >= 0 && size > 0
    ensures k * size >= 0 && (k + 1) * size == k * size + size
  {
  }

  lemma {:induction false} PagesPrefix(list: seq<Shown>, size: int, k: nat, end: int)
    requires size > 0 && k <= TotalPages(|list|, size) && end == k * size
    ensures 0 <= end && Pages(list, size, k) == if end <= |list| then list[..end] else list
    decreases k
  {
    hide TotalPages, Page;
    if k > 0 {
      NonNegative(k - 1, size);
      PagesPrefix(list, size, k - 1, (k - 1) * size);
      PageSlice(list, size, k, (k - 1) * size);
    }
  }

  lemma CeilCovers(total: nat, size: int)
    requires size > 0
    ensures TotalPages(total, size) * size >= total
  {
    var x := total + size - 1;
    var q := x / size;
    assert x == size * q + x % size;
    assert q * size == size * q;
    if q == 0 {
      assert total == 0 || total <= size;
    }
  }

  /** And no page begins beyond the last entry, unless it is the only one. */
  lemma NoEmptyPage(total: nat, size: int)
    requires size > 0
    ensures TotalPages(total, size) > 1 ==> (TotalPages(total, size) - 1) * size < total
  {
    var x := total + size - 1;
    var q := x / size;
    assert x == size * q + x % size;
    assert (q - 1) * size == size * q - size;
  }

  /** Whatever page size is asked for, the pages, one after the other, are the whole list: nothing is skipped
      and nothing repeated. */
  lemma PagesPartition(list: seq<Shown>, requested: int)
    ensures var size := PageSize(requested); Pages(list, size, TotalPages(|list|, size)) == list
  {
    hide TotalPages;
    var size := PageSize(requested);
    var k := TotalPages(|list|, size);
    PagesPrefix(list, size, k, k * size);
    CeilCovers(|list|, size);
  }

  // ---------------------------------------------------------------- appending keys

  /** The append mode of `UpdateChannel`: new keys, trimmed, that neither repeat each other nor an
      existing key go behind the existing ones. */
  method AppendKeys(existing: seq<string>, newKeys: seq<string>) returns (all: seq<string>)
    ensures all == existing + Dropping(Normalize(newKeys), Elems(Normalize(existing)))
  {
    hide Normalize, Dropping, Trim;
    NothingYet([]);
    var seen: set<string> := {};
    for i := 0 to |existing|
      invariant seen == Elems(Normalize(existing[..i]))
    {
      NormalizeOne(existing, i);
      var normalized := Trim(existing[i]);
      if normalized == "" {
        continue;
      }
      ElemsOne(Normalize(existing[..i]), normalized);
      seen := seen + {normalized};
    }
    assert existing[..|existing|] == existing;
    ghost var before := seen;
    NothingDropped(before);
    var deduped: seq<string> := [];
    for i := 0 to |newKeys|
      invariant seen == before + Elems(Normalize(newKeys[..i]))
      invariant deduped == Dropping(Normalize(newKeys[..i]), before)
    {
      NormalizeOne(newKeys, i);
      var normalized := Trim(newKeys[i]);
      ElemsOne(Normalize(newKeys[..i]), normalized);
      DroppingOne(Normalize(newKeys[..i]), normalized, before);
      if normalized == "" || normalized in seen {
        continue;
      }
      seen := seen + {normalized};
      deduped := deduped + [normalized];
    }
    assert newKeys[..|newKeys|] == newKeys;
    all := existing + deduped;
  }

  lemma NothingDropped(out: set<string>)
    ensures Dropping([], out) == []
  {
  }

  /** Appending keys disturbs nothing that is shown about the existing ones. */
  lemma AppendKeepsView(row: Row, added: seq<string>)
    requires Valid(row) && row.keys + added != []
    ensures var after := Persist(row, row.(keys := row.keys + added));
            Valid(after) && View(after)[..|row.keys|] == View(row)
            && forall j :: 0 <= j < |added| ==> View(after)[|row.keys| + j] == Shown(added[j], ENABLED, 0, "")
  {
    var after := Persist(row, row.(keys := row.keys + added));
    assert after.status == row.status;
  }
}
