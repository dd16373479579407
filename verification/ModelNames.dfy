/**
 Ordered, duplicate-free lists of model names: trimming, normalising, merging, subtracting and
 intersecting them, and storing one as a comma-separated string.
 */
module ModelNames {

  /** The characters `strings.TrimSpace` cuts. */
  const SPACES: set<char> := {
    ' ', '\t', '\n', '\r', '\U{b}', '\U{c}', '\U{85}', '\U{a0}', '\U{1680}', '\U{2000}', '\U{2001}', '\U{2002}',
        '\U{2003}',
    '\U{2004}', '\U{2005}', '\U{2006}', '\U{2007}', '\U{2008}', '\U{2009}', '\U{200a}', '\U{2028}', '\U{2029}',
        '\U{202f}',
    '\U{205f}', '\U{3000}'}

  const COMMA: set<char> := {','}

  function StripLeft(s: string, cut: set<char>): string {
    if s != "" && s[0] in cut then StripLeft(s[1..], cut) else s
  }

  function StripRight(s: string, cut: set<char>): string {
    if s != "" && s[|s| - 1] in cut then StripRight(s[..|s| - 1], cut) else s
  }

  function Strip(s: string, cut: set<char>): string {
    StripRight(StripLeft(s, cut), cut)
  }

  /** `strings.TrimSpace`. */
  function Trim(s: string): string {
    Strip(s, SPACES)
  }

  predicate Stripped(s: string, cut: set<char>) {
    s == "" || (s[0] !in cut && s[|s| - 1] !in cut)
  }

  lemma {:induction false} StripLeftStarts(s: string, cut: set<char>)
    ensures StripLeft(s, cut) == "" || StripLeft(s, cut)[0] !in cut
    ensures forall c :: c in StripLeft(s, cut) ==> c in s
  {
    if s != "" && s[0] in cut {
      StripLeftStarts(s[1..], cut);
    }
  }

  lemma {:induction false} StripRightEnds(s: string, cut: set<char>)
    ensures StripRight(s, cut) == "" || StripRight(s, cut)[|StripRight(s, cut)| - 1] !in cut
    ensures StripRight(s, cut) <= s
  {
    if s != "" && s[|s| - 1] in cut {
      StripRightEnds(s[..|s| - 1], cut);
    }
  }

  /** Stripping leaves no cut character at either end, invents none, and is done once and for all. */
  lemma StripOnce(s: string, cut: set<char>)
    ensures Stripped(Strip(s, cut), cut)
    ensures Strip(Strip(s, cut), cut) == Strip(s, cut)
    ensures forall c :: c in Strip(s, cut) ==> c in s
  {
    var l := StripLeft(s, cut);
    StripLeftStarts(s, cut);
    StripRightEnds(l, cut);
    var r := StripRight(l, cut);
    assert forall i :: 0 <= i < |r| ==> r[i] == l[i];
  }

  /** What is cut is exactly the run of cut characters at either end. */
  lemma StripExact(s: string, cut: set<char>)
    ensures Stripped(Strip(s, cut), cut)
    ensures exists i, j :: 0 <= i <= j <= |s| && CutAway(s, i, j, cut) && Strip(s, cut) == s[i..j]
  {
    StripOnce(s, cut);
    LeftRun(s, cut);
    var l := StripLeft(s, cut);
    RightRun(l, cut);
    var r := StripRight(l, cut);
    var i, j := |s| - |l|, |s| - |l| + |r|;
    assert l == s[i..] && r == s[i..j];
    forall k | j <= k < |s| ensures s[k] in cut {
      assert s[k] == l[k - i];
    }
    assert CutAway(s, i, j, cut);
  }

  /** Everything before `i` and from `j` on is to be cut. */
  ghost predicate CutAway(s: string, i: int, j: int, cut: set<char>) {
    (forall k :: 0 <= k < i && k < |s| ==> s[k] in cut) && (forall k :: j <= k < |s| && 0 <= k ==> s[k] in cut)
  }

  lemma {:induction false} LeftRun(s: string, cut: set<char>)
    ensures |StripLeft(s, cut)| <= |s| && StripLeft(s, cut) == s[|s| - |StripLeft(s, cut)|..]
    ensures forall k :: 0 <= k < |s| - |StripLeft(s, cut)| ==> s[k] in cut
  {
    if s != "" && s[0] in cut {
      LeftRun(s[1..], cut);
      assert forall k :: 1 <= k < |s| ==> s[k] == s[1..][k - 1];
    }
  }

  lemma {:induction false} RightRun(s: string, cut: set<char>)
    ensures StripRight(s, cut) <= s && forall k :: |StripRight(s, cut)| <= k < |s| ==> s[k] in cut
  {
    if s != "" && s[|s| - 1] in cut {
      RightRun(s[..|s| - 1], cut);
    }
  }

  // ---------------------------------------------------------------- lists

  ghost predicate NoDup(xs: seq<string>) {
    forall i, j :: 0 <= i < j < |xs| ==> xs[i] != xs[j]
  }

  /** A list as `normalizeModelNames` leaves it. */
  ghost predicate Normal(xs: seq<string>) {
    NoDup(xs) && forall i :: 0 <= i < |xs| ==> xs[i] != "" && Trim(xs[i]) == xs[i]
  }

  function Elems(xs: seq<string>): set<string> {
    set x | x in xs
  }

  /** `normalizeModelNames`: trim, drop blanks, keep first occurrences. */
  function Normalize(xs: seq<string>): seq<string> {
    if xs == [] then []
    else
      var front, t := Normalize(xs[..|xs| - 1]), Trim(xs[|xs| - 1]);
      if t == "" || t in front then front else front + [t]
  }

  lemma NormalizeOne(xs: seq<string>, i: nat)
    requires i < |xs|
    ensures var front, t := Normalize(xs[..i]), Trim(xs[i]);
            Normalize(xs[..i + 1]) == if t == "" || t in front then front else front + [t]
  {
    assert xs[..i + 1][..i] == xs[..i];
  }

  lemma {:induction false} NormalizeNormal(xs: seq<string>)
    ensures Normal(Normalize(xs))
  {
    if xs != [] {
      NormalizeNormal(xs[..|xs| - 1]);
      StripOnce(xs[|xs| - 1], SPACES);
    }
  }

  lemma {:induction false} NormalizeMember(xs: seq<string>, t: string)
    ensures t in Normalize(xs) <==> t != "" && exists i :: 0 <= i < |xs| && Trim(xs[i]) == t
  {
    if xs != [] {
      var front := xs[..|xs| - 1];
      NormalizeMember(front, t);
      if i :| 0 <= i < |xs| && Trim(xs[i]) == t {
        assert i < |front| ==> Trim(front[i]) == t;
      }
      if i :| 0 <= i < |front| && Trim(front[i]) == t {
        assert Trim(xs[i]) == t;
      }
    }
  }

  /** Normalising is idempotent. */
  lemma {:induction false} NormalizeNormalList(xs: seq<string>)
    requires Normal(xs)
    ensures Normalize(xs) == xs
  {
    if xs != [] {
      var front := xs[..|xs| - 1];
      NormalizeNormalList(front);
      assert xs == front + [xs[|xs| - 1]];
      assert xs[|xs| - 1] !in front;
    }
  }

  function Dropping(xs: seq<string>, out: set<string>): seq<string> {
    if xs == [] then []
    else Dropping(xs[..|xs| - 1], out) + if xs[|xs| - 1] in out then [] else [xs[|xs| - 1]]
  }

  lemma DroppingOne(xs: seq<string>, x: string, out: set<string>)
    ensures Dropping(xs + [x], out) == Dropping(xs, out) + if x in out then [] else [x]
  {
    assert (xs + [x])[..|xs|] == xs;
  }

  lemma ElemsOne(xs: seq<string>, x: string)
    ensures Elems(xs + [x]) == Elems(xs) + {x}
  {
  }

  function Keeping(xs: seq<string>, allowed: set<string>): seq<string> {
    Dropping(xs, Elems(xs) - allowed)
  }

  lemma {:induction false} DroppingMember(xs: seq<string>, out: set<string>)
    ensures forall x :: x in Dropping(xs, out) <==> x in xs && x !in out
    ensures Normal(xs) ==> Normal(Dropping(xs, out))
  {
    if xs != [] {
      var front := xs[..|xs| - 1];
      DroppingMember(front, out);
      assert xs == front + [xs[|xs| - 1]];
    }
  }

  lemma {:induction false} DroppingNothing(xs: seq<string>, out: set<string>)
    requires forall x :: x in xs ==> x !in out
    ensures Dropping(xs, out) == xs
  {
    if xs != [] {
      DroppingNothing(xs[..|xs| - 1], out);
    }
  }

  /** Normalising and dropping go through a list from the front: what comes later only appends. */
  lemma {:induction false} FrontStays(xs: seq<string>, ys: seq<string>, out: set<string>)
    ensures Normalize(xs) <= Normalize(xs + ys) && Dropping(xs, out) <= Dropping(xs + ys, out)
  {
    if ys == [] {
      assert xs + ys == xs;
    } else {
      var front := ys[..|ys| - 1];
      FrontStays(xs, front, out);
      assert (xs + ys)[..|xs + ys| - 1] == xs + front;
    }
  }

  /** `mergeModelNames`. */
  function Merge(base: seq<string>, appended: seq<string>): seq<string> {
    Normalize(base) + Dropping(Normalize(appended), Elems(Normalize(base)))
  }

  /** `subtractModelNames`. */
  function Subtract(base: seq<string>, removed: seq<string>): seq<string> {
    Dropping(Normalize(base), Elems(Normalize(removed)))
  }

  /** `intersectModelNames`. */
  function Intersect(base: seq<string>, allowed: seq<string>): seq<string> {
    Keeping(Normalize(base), Elems(Normalize(allowed)))
  }

  /** The list algebra is set algebra on normal lists, and its results are normal again. */
  lemma MergeAlgebra(a: seq<string>, b: seq<string>)
    ensures Normal(Merge(a, b)) && Elems(Merge(a, b)) == Elems(Normalize(a)) + Elems(Normalize(b))
  {
    var na, nb := Normalize(a), Normalize(b);
    NormalizeNormal(a);
    NormalizeNormal(b);
    DroppingMember(nb, Elems(na));
    ConcatNormal(na, Dropping(nb, Elems(na)));
  }

  lemma SubtractAlgebra(a: seq<string>, b: seq<string>)
    ensures Normal(Subtract(a, b)) && Elems(Subtract(a, b)) == Elems(Normalize(a)) - Elems(Normalize(b))
  {
    NormalizeNormal(a);
    DroppingMember(Normalize(a), Elems(Normalize(b)));
  }

  lemma IntersectAlgebra(a: seq<string>, b: seq<string>)
    ensures Normal(Intersect(a, b)) && Elems(Intersect(a, b)) == Elems(Normalize(a)) * Elems(Normalize(b))
  {
    NormalizeNormal(a);
    DroppingMember(Normalize(a), Elems(Normalize(a)) - Elems(Normalize(b)));
  }

  lemma ConcatNormal(a: seq<string>, b: seq<string>)
    requires Normal(a) && Normal(b) && Elems(a) !! Elems(b)
    ensures Normal(a + b) && Elems(a + b) == Elems(a) + Elems(b)
  {
    var c := a + b;
    forall i, j | 0 <= i < j < |c|
      ensures c[i] != c[j]
    {
      if i < |a| <= j {
        assert c[i] in Elems(a) && c[j] in Elems(b);
      }
    }
  }

  lemma OneMoreName(start: seq<string>, extra: seq<string>, i: nat)
    requires NoDup(extra) && i < |extra|
    ensures extra[i] in Elems(start) + Elems(extra[..i]) <==> extra[i] in Elems(start)
    ensures Elems(extra[..i + 1]) == Elems(extra[..i]) + {extra[i]}
    ensures Dropping(extra[..i + 1], Elems(start)) == Dropping(extra[..i],
            Elems(start)) + if extra[i] in Elems(start) then [] else [extra[i]]
  {
    assert extra[..i + 1] == extra[..i] + [extra[i]];
    ElemsOne(extra[..i], extra[i]);
    DroppingOne(extra[..i], extra[i], Elems(start));
    assert extra[i] !in extra[..i];
  }

  /** `mergeModelNames` as written: append what is not yet in `seen`. */
  method MergeModelNames(base: seq<string>, appended: seq<string>) returns (merged: seq<string>)
    ensures merged == Merge(base, appended)
  {
    merged := Normalize(base);
    ghost var start := merged;
    var seen := Elems(merged);
    var extra := Normalize(appended);
    NormalizeNormal(appended);
    NothingYet(start);
    hide Normalize, Dropping, Trim, Elems;
    for i := 0 to |extra|
      invariant seen == Elems(start) + Elems(extra[..i])
      invariant merged == start + Dropping(extra[..i], Elems(start))
    {
      OneMoreName(start, extra, i);
      if extra[i] !in seen {
        seen := seen + {extra[i]};
        merged := merged + [extra[i]];
      }
    }
    assert extra[..|extra|] == extra;
  }

  lemma NothingYet(start: seq<string>)
    ensures Elems([]) == {} && start + Dropping([], Elems(start)) == start && Normalize([]) == []
  {
  }

  // ---------------------------------------------------------------- stored form

  function Split(s: string): (pieces: seq<string>)
    ensures |pieces| >= 1
  {
    if s == "" then [""]
    else if s[0] == ',' then [""] + Split(s[1..])
    else var rest := Split(s[1..]); [[s[0]] + rest[0]] + rest[1..]
  }

  function Join(xs: seq<string>): string {
    if xs == [] then "" else if |xs| == 1 then xs[0] else xs[0] + "," + Join(xs[1..])
  }

  /** `Channel.GetModels`. */
  function GetModels(models: string): seq<string> {
    if models == "" then [] else Split(Strip(models, COMMA))
  }

  predicate CommaFree(x: string) {
    ',' !in x
  }

  ghost predicate AllCommaFree(xs: seq<string>) {
    forall i :: 0 <= i < |xs| ==> CommaFree(xs[i])
  }

  lemma {:induction false} SplitPieces(s: string)
    ensures AllCommaFree(Split(s))
  {
    if s != "" {
      SplitPieces(s[1..]);
      assert CommaFree(Split(s[1..])[0]);
    }
  }

  /** The pieces, joined by commas, give the stored text again; none contains a comma itself. */
  lemma {:induction false} SplitExact(s: string)
    ensures Join(Split(s)) == s && AllCommaFree(Split(s))
  {
    SplitPieces(s);
    if s != "" {
      SplitExact(s[1..]);
      var rest := Split(s[1..]);
      if s[0] == ',' {
        assert ([""] + rest)[1..] == rest;
      } else if |rest| > 1 {
        assert ([[s[0]] + rest[0]] + rest[1..])[1..] == rest[1..];
      }
    }
  }

  lemma {:induction false} SplitFirst(x: string, rest: string)
    requires CommaFree(x)
    ensures Split(x) == [x]
    ensures Split(x + "," + rest) == [x] + Split(rest)
  {
    var s := x + "," + rest;
    if x == "" {
      assert s[1..] == rest;
    } else {
      SplitFirst(x[1..], rest);
      assert s[1..] == x[1..] + "," + rest;
      assert x == [x[0]] + x[1..];
    }
  }

  lemma {:induction false} SplitJoin(xs: seq<string>)
    requires xs != [] && AllCommaFree(xs)
    ensures Split(Join(xs)) == xs
  {
    if |xs| == 1 {
      SplitFirst(xs[0], "");
    } else {
      SplitJoin(xs[1..]);
      SplitFirst(xs[0], Join(xs[1..]));
      assert xs == [xs[0]] + xs[1..];
    }
  }

  lemma {:induction false} JoinEnds(xs: seq<string>)
    requires xs != [] && AllCommaFree(xs) && forall i :: 0 <= i < |xs| ==> xs[i] != ""
    ensures Stripped(Join(xs), COMMA) && Join(xs) != ""
  {
    assert CommaFree(xs[0]);
    if |xs| > 1 {
      JoinEnds(xs[1..]);
    }
  }

  lemma StripStripped(s: string, cut: set<char>)
    requires Stripped(s, cut)
    ensures Strip(s, cut) == s
  {
  }

  /** Storing a normal list without commas and reading it back gives the same list. */
  lemma StoreAndLoad(xs: seq<string>)
    requires Normal(xs) && AllCommaFree(xs)
    ensures Normalize(GetModels(Join(xs))) == xs
  {
    if xs != [] {
      JoinEnds(xs);
      StripStripped(Join(xs), COMMA);
      SplitJoin(xs);
    }
    NormalizeNormalList(xs);
  }

  /** Whatever is stored, the names read back contain no comma. */
  lemma LoadedCommaFree(models: string)
    ensures AllCommaFree(Normalize(GetModels(models)))
  {
    var pieces := GetModels(models);
    var names := Normalize(pieces);
    SplitPieces(Strip(models, COMMA));
    forall k | 0 <= k < |names|
      ensures CommaFree(names[k])
    {
      NormalizeMember(pieces, names[k]);
      var i :| 0 <= i < |pieces| && Trim(pieces[i]) == names[k];
      StripOnce(pieces[i], SPACES);
      assert CommaFree(pieces[i]);
    }
  }
}
