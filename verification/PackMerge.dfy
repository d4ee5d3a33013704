/** Composition of two configuration packs: a generic base and an industry overlay.

    Dictionaries merge key by key, lists are united with the base items first, and in
    every other conflict the overlay wins. A pack value is a finite tree. */
module PackMerge {
  import opened Options

  datatype Val =
    | Scalar(s: string)
    | Items(l: seq<Val>)
    | Dict(m: map<string, Val>)

  // ---------- reference definitions ----------

  /** The base followed by the overlay items it does not yet hold, each taken once. */
  function Union(base: seq<Val>, overlay: seq<Val>): seq<Val>
  {
    if overlay == [] then base
    else
      var out := Union(base, overlay[..|overlay| - 1]);
      var item := overlay[|overlay| - 1];
      if item in out then out else out + [item]
  }

  /** The value a key ends up with when both packs define it. */
  function Overlay(a: Val, b: Val): Val
    decreases b
  {
    match (a, b)
    case (Dict(am), Dict(bm)) =>
      Dict(map k | k in am.Keys + bm.Keys ::
        if k !in bm then am[k] else if k !in am then bm[k] else Overlay(am[k], bm[k]))
    case (Items(al), Items(bl)) => Items(Union(al, bl))
    case _ => b
  }

  function Merge(base: map<string, Val>, overlay: map<string, Val>): map<string, Val>
  {
    Overlay(Dict(base), Dict(overlay)).m
  }

  // ---------- the program ----------

  method UnionList(base: seq<Val>, overlay: seq<Val>) returns (out: seq<Val>)
    ensures out == Union(base, overlay)
  {
    out := base;
    for i := 0 to |overlay|
      invariant out == Union(base, overlay[..i])
    {
      assert overlay[..i + 1][..i] == overlay[..i];
      if overlay[i] !in out {
        out := out + [overlay[i]];
      }
    }
    assert overlay[..|overlay|] == overlay;
  }

  method MergeHookDicts(base: map<string, Val>, overlay: map<string, Val>)
    returns (merged: map<string, Val>)
    ensures merged == Merge(base, overlay)
    decreases Dict(overlay)
  {
    merged := base;
    var pending := overlay.Keys;
    while pending != {}
      invariant pending <= overlay.Keys
      invariant merged.Keys == base.Keys + (overlay.Keys - pending)
      invariant forall k :: k in merged ==>
        merged[k] == (if k !in overlay || k in pending then base[k]
                      else if k !in base then overlay[k]
                      else Overlay(base[k], overlay[k]))
      decreases pending
    {
      var key :| key in pending;
      var value := overlay[key];
      if key !in merged {
        merged := merged[key := value];
      } else if merged[key].Dict? && value.Dict? {
        assert Dict(value.m) == value;
        var inner := MergeHookDicts(merged[key].m, value.m);
        assert Dict(merged[key].m) == merged[key];
        merged := merged[key := Dict(inner)];
      } else if merged[key].Items? && value.Items? {
        var inner := UnionList(merged[key].l, value.l);
        merged := merged[key := Items(inner)];
      } else {
        merged := merged[key := value];
      }
      pending := pending - {key};
    }
  }

  // ---------- lists ----------

  predicate Distinct(s: seq<Val>)
  {
    forall i, j :: 0 <= i < j < |s| ==> s[i] != s[j]
  }

  /** Nothing is lost or invented, the base list stays in front untouched, and no item of
      the overlay is added twice. */
  lemma {:induction false} UnionContents(base: seq<Val>, overlay: seq<Val>)
    ensures base <= Union(base, overlay)
    ensures forall x :: x in Union(base, overlay) <==> x in base || x in overlay
    ensures Distinct(Union(base, overlay)[|base|..])
    ensures forall x :: x in Union(base, overlay)[|base|..] ==> x !in base
    decreases |overlay|
  {
    if overlay != [] {
      var init, item := overlay[..|overlay| - 1], overlay[|overlay| - 1];
      UnionContents(base, init);
      assert overlay == init + [item];
      var out := Union(base, init);
      if item !in out {
        assert (out + [item])[|base|..] == out[|base|..] + [item];
      }
    }
  }

  /** Feeding the overlay in two parts is the same as feeding it whole: new items keep
      their order of arrival. */
  lemma {:induction false} UnionInParts(base: seq<Val>, first: seq<Val>, second: seq<Val>)
    ensures Union(base, first + second) == Union(Union(base, first), second)
    decreases |second|
  {
    if second == [] {
      assert first + second == first;
    } else {
      var init := second[..|second| - 1];
      UnionInParts(base, first, init);
      assert (first + second)[..|first + second| - 1] == first + init;
    }
  }

  lemma {:induction false} UnionKnownItems(base: seq<Val>, overlay: seq<Val>)
    requires forall x :: x in overlay ==> x in base
    ensures Union(base, overlay) == base
    decreases |overlay|
  {
    if overlay != [] {
      UnionKnownItems(base, overlay[..|overlay| - 1]);
    }
  }

  lemma {:induction false} UnionIdentity(s: seq<Val>)
    requires Distinct(s)
    ensures Union([], s) == s
    decreases |s|
  {
    if s != [] {
      UnionIdentity(s[..|s| - 1]);
      assert s == s[..|s| - 1] + [s[|s| - 1]];
    }
  }

  lemma {:induction false} UnionAssociative(a: seq<Val>, b: seq<Val>, c: seq<Val>)
    ensures Union(Union(a, b), c) == Union(a, Union(b, c))
    decreases |c|
  {
    if c != [] {
      var init, item := c[..|c| - 1], c[|c| - 1];
      UnionAssociative(a, b, init);
      UnionContents(b, init);
      UnionContents(a, Union(b, init));
      if item !in Union(b, init) {
        UnionInParts(a, Union(b, init), [item]);
        assert [item][..0] == [];
      }
    }
  }

  // ---------- dictionaries ----------

  /** The empty pack is a two-sided identity. */
  lemma {:induction false} MergeIdentity(d: map<string, Val>)
    ensures Merge(map[], d) == d
    ensures Merge(d, map[]) == d
  {
    assert Merge(map[], d).Keys == d.Keys;
    assert Merge(d, map[]).Keys == d.Keys;
  }

  lemma {:induction false} OverlayIdempotent(a: Val)
    ensures Overlay(a, a) == a
  {
    match a {
      case Scalar(_) =>
      case Items(l) => UnionKnownItems(l, l);
      case Dict(m) =>
        forall k | k in m ensures Overlay(m[k], m[k]) == m[k] { OverlayIdempotent(m[k]); }
        assert Overlay(a, a).m == m;
    }
  }

  lemma MergeIdempotent(d: map<string, Val>)
    ensures Merge(d, d) == d
  {
    OverlayIdempotent(Dict(d));
  }

  /** `c` already carries everything `a` would contribute below it. Decided by walking
      the two trees, without merging anything. */
  predicate Absorbs(a: Val, c: Val)
    decreases c
  {
    match (a, c)
    case (Dict(am), Dict(cm)) => forall k :: k in am ==> k in cm && Absorbs(am[k], cm[k])
    case (Items(al), Items(cl)) =>
      al <= cl && Distinct(cl[|al|..]) && forall x :: x in cl[|al|..] ==> x !in al
    case _ => true
  }

  lemma {:induction false} UnionAbsorbs(al: seq<Val>, cl: seq<Val>)
    ensures Union(al, cl) == cl <==> Absorbs(Items(al), Items(cl))
  {
    if Absorbs(Items(al), Items(cl)) {
      assert cl == al + cl[|al|..];
      UnionInParts(al, al, cl[|al|..]);
      UnionKnownItems(al, al);
      AppendFresh(al, cl[|al|..]);
    } else {
      UnionContents(al, cl);
    }
  }

  lemma {:induction false} AppendFresh(base: seq<Val>, extra: seq<Val>)
    requires Distinct(extra) && forall x :: x in extra ==> x !in base
    ensures Union(base, extra) == base + extra
    decreases |extra|
  {
    if extra != [] {
      AppendFresh(base, extra[..|extra| - 1]);
      assert extra == extra[..|extra| - 1] + [extra[|extra| - 1]];
    }
  }

  lemma {:induction false} OverlayAbsorbs(a: Val, c: Val)
    ensures Overlay(a, c) == c <==> Absorbs(a, c)
    decreases c
  {
    match (a, c) {
      case (Dict(am), Dict(cm)) =>
        forall k | k in am && k in cm
          ensures Overlay(am[k], cm[k]) == cm[k] <==> Absorbs(am[k], cm[k])
        {
          OverlayAbsorbs(am[k], cm[k]);
        }
        var m := Overlay(a, c).m;
        assert m.Keys == am.Keys + cm.Keys;
        if Absorbs(a, c) {
          assert m == cm;
        } else {
          var k :| k in am && !(k in cm && Absorbs(am[k], cm[k]));
          assert k in m;
        }
      case (Items(al), Items(cl)) => UnionAbsorbs(al, cl);
      case _ =>
    }
  }

  /** The guard under which layering three packs does not depend on the grouping: wherever
      a dictionary (or list) sits on both outer layers with a value of another kind between
      them, the top layer must already carry what the bottom one would add. */
  predicate Layerable(a: Val, b: Val, c: Val)
    decreases c
  {
    match (a, c)
    case (Dict(am), Dict(cm)) =>
      if b.Dict? then
        forall k :: k in am && k in b.m && k in cm ==> Layerable(am[k], b.m[k], cm[k])
      else Absorbs(a, c)
    case (Items(_), Items(_)) => b.Items? || Absorbs(a, c)
    case _ => true
  }

  /** Associativity holds exactly under that guard. */
  lemma {:induction false} OverlayAssociativeIff(a: Val, b: Val, c: Val)
    ensures Overlay(Overlay(a, b), c) == Overlay(a, Overlay(b, c)) <==> Layerable(a, b, c)
    decreases c
  {
    if a.Dict? && b.Dict? && c.Dict? {
      var left, right := Overlay(Overlay(a, b), c).m, Overlay(a, Overlay(b, c)).m;
      assert left.Keys == right.Keys == a.m.Keys + b.m.Keys + c.m.Keys;
      forall k | k in left
        ensures left[k] == right[k] <==>
          (k in a.m && k in b.m && k in c.m ==> Layerable(a.m[k], b.m[k], c.m[k]))
      {
        if k in a.m && k in b.m && k in c.m {
          OverlayAssociativeIff(a.m[k], b.m[k], c.m[k]);
        }
      }
      if Layerable(a, b, c) {
        assert left == right;
      }
    } else if a.Items? && b.Items? && c.Items? {
      UnionAssociative(a.l, b.l, c.l);
    } else {
      OverlayAbsorbs(a, c);
    }
  }

  /** Two values agree in kind, and so do all values below them under a common key. */
  predicate SameShape(a: Val, b: Val)
    decreases b
  {
    match (a, b)
    case (Dict(am), Dict(bm)) => forall k :: k in am && k in bm ==> SameShape(am[k], bm[k])
    case (Items(_), Items(_)) => true
    case (Scalar(_), Scalar(_)) => true
    case _ => false
  }

  lemma {:induction false} SameShapeLayerable(a: Val, b: Val, c: Val)
    requires SameShape(a, b) && SameShape(b, c) && SameShape(a, c)
    ensures Layerable(a, b, c)
    decreases c
  {
    if a.Dict? {
      forall k | k in a.m && k in b.m && k in c.m ensures Layerable(a.m[k], b.m[k], c.m[k]) {
        SameShapeLayerable(a.m[k], b.m[k], c.m[k]);
      }
    }
  }

  /** Packs that follow one schema can be layered in any grouping. */
  lemma MergeAssociativeOnCommonShape(a: map<string, Val>, b: map<string, Val>, c: map<string, Val>)
    requires SameShape(Dict(a), Dict(b)) && SameShape(Dict(b), Dict(c)) && SameShape(Dict(a), Dict(c))
    ensures Merge(Merge(a, b), c) == Merge(a, Merge(b, c))
  {
    SameShapeLayerable(Dict(a), Dict(b), Dict(c));
    OverlayAssociativeIff(Dict(a), Dict(b), Dict(c));
    assert Dict(Merge(a, b)) == Overlay(Dict(a), Dict(b));
    assert Dict(Merge(b, c)) == Overlay(Dict(b), Dict(c));
  }

  /** A scalar between two dictionaries: the left grouping forgets the bottom dictionary,
      the right grouping keeps it. */
  lemma MergeNotAssociative()
    ensures exists a, b, c :: Merge(Merge(a, b), c) != Merge(a, Merge(b, c))
  {
    var a := map["hook" := Dict(map["x" := Scalar("1")])];
    var b := map["hook" := Scalar("off")];
    var c := map["hook" := Dict(map[])];
    var left, right := Merge(Merge(a, b), c), Merge(a, Merge(b, c));
    assert left["hook"] == Dict(map[]);
    assert Merge(b, c)["hook"] == Dict(map[]);
    assert right["hook"] == Overlay(a["hook"], Dict(map[]));
    assert "x" in right["hook"].m;
    assert left != right;
  }

  // ---------- what a reader finds at a path ----------

  function At(v: Val, path: seq<string>): Option<Val>
  {
    if path == [] then Some(v)
    else if v.Dict? && path[0] in v.m then At(v.m[path[0]], path[1..])
    else None
  }

  /** The overlay ends the path early, at a value that is no dictionary. */
  predicate Blocked(b: Val, path: seq<string>)
  {
    path != [] && (b.Dict? ==> path[0] in b.m && Blocked(b.m[path[0]], path[1..]))
  }

  /** What is found at any path of the merged pack: where both packs have a value, the merge of
      the two; where only one has, that one, unless it is the base and the overlay ends the path
      early. */
  lemma {:induction false} OverlayAt(a: Val, b: Val, path: seq<string>)
    ensures At(Overlay(a, b), path) ==
      match (At(a, path), At(b, path))
      case (Some(v), Some(w)) => Some(Overlay(v, w))
      case (_, Some(w)) => Some(w)
      case (found, None) => if Blocked(b, path) then None else found
    decreases |path|
  {
    if path != [] && a.Dict? && b.Dict? && path[0] in a.m && path[0] in b.m {
      OverlayAt(a.m[path[0]], b.m[path[0]], path[1..]);
    }
  }

  /** A scalar of the overlay is found unchanged at the same path of the merged pack. */
  lemma {:induction false} OverlayScalarWins(a: Val, b: Val, path: seq<string>)
    requires At(b, path).Some? && At(b, path).value.Scalar?
    ensures At(Overlay(a, b), path) == At(b, path)
    decreases |path|
  {
    if path != [] && a.Dict? && path[0] in a.m {
      OverlayScalarWins(a.m[path[0]], b.m[path[0]], path[1..]);
    }
  }

  /** A list of the base keeps its items, in order and in front, in the merged pack. */
  lemma {:induction false} BaseItemsKept(a: Val, b: Val, path: seq<string>)
    requires SameShape(a, b)
    requires At(a, path).Some? && At(a, path).value.Items?
    ensures At(Overlay(a, b), path).Some? && At(Overlay(a, b), path).value.Items?
    ensures At(a, path).value.l <= At(Overlay(a, b), path).value.l
    decreases |path|
  {
    if path == [] {
      UnionContents(a.l, b.l);
    } else if path[0] in b.m {
      BaseItemsKept(a.m[path[0]], b.m[path[0]], path[1..]);
    }
  }
}
