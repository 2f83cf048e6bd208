/**
 * `Paginator.flatten_json`: collapses a nested JSON value into a single-level
 * dictionary whose keys are the paths to the scalar leaves, dictionary keys
 * and list positions joined by `_`.
 *
 * `Walk` is the recursive walk the source performs, with the shared output
 * dictionary threaded through as a value; `FlattenInto` is the same walk as
 * the source writes it, with its loops and its index counter. `Leaves` is an
 * independent description of the result (the leaves and their paths, in
 * document order), and `FlattenIsLastWriteOfLeaves` ties the two together.
 */
module Flattener {
  import opened Json

  /** Python's `name[:-1]`: drops the trailing separator; `''[:-1]` is `''`. */
  function DropLast(name: string): string {
    if name == "" then "" else name[..|name| - 1]
  }

  /** The walk of the inner `flatten(x, name)`, writing into `out`. */
  function Walk(out: Dict<Json>, x: Json, name: string): Dict<Json>
    decreases x
  {
    match x
    case JObj(fs) => WalkFields(out, fs, name)
    case JArr(xs) => WalkItems(out, xs, name, 0)
    case _ => Put(out, DropLast(name), x)
  }

  /** `for a in x: flatten(x[a], name + a + '_')` */
  function WalkFields(out: Dict<Json>, fs: seq<(string, Json)>, name: string): Dict<Json>
    decreases fs
  {
    if fs == [] then out
    else
      var (k, v) := fs[0];
      assert v < fs[0];
      WalkFields(Walk(out, v, name + k + "_"), fs[1..], name)
  }

  /** `for a in x: flatten(a, name + str(i) + '_'); i += 1` */
  function WalkItems(out: Dict<Json>, xs: seq<Json>, name: string, i: nat): Dict<Json>
    decreases xs
  {
    if xs == [] then out
    else WalkItems(Walk(out, xs[0], name + NatToString(i) + "_"), xs[1..], name, i + 1)
  }

  /** `flatten_json(y)` */
  function Flatten(y: Json): Dict<Json> {
    Walk([], y, "")
  }

  // ---------------------------------------------------------------------------
  // The imperative walk

  /** `flatten_json(y)`, as the source computes it. */
  method FlattenJson(y: Json) returns (out: Dict<Json>)
    ensures out == Flatten(y)
    ensures IsFlatDict(out)
  {
    out := FlattenInto([], y, "");
    FlattenIsFlat(y);
  }

  /** The inner `flatten(x, name)`, adding to the dictionary `out0`. */
  method FlattenInto(out0: Dict<Json>, x: Json, name: string) returns (out: Dict<Json>)
    ensures out == Walk(out0, x, name)
    decreases x
  {
    match x {
      case JObj(fs) =>
        out := out0;
        var j := 0;
        while j < |fs|
          invariant 0 <= j <= |fs|
          invariant WalkFields(out, fs[j..], name) == WalkFields(out0, fs, name)
        {
          var (a, v) := fs[j];
          assert fs[j..][0] == fs[j] && fs[j..][1..] == fs[j + 1..];
          out := FlattenInto(out, v, name + a + "_");
          j := j + 1;
        }
      case JArr(xs) =>
        out := out0;
        var i := 0;
        while i < |xs|
          invariant 0 <= i <= |xs|
          invariant WalkItems(out, xs[i..], name, i) == WalkItems(out0, xs, name, 0)
        {
          assert xs[i..][0] == xs[i] && xs[i..][1..] == xs[i + 1..];
          out := FlattenInto(out, xs[i], name + NatToString(i) + "_");
          i := i + 1;
        }
      case _ =>
        out := Put(out0, DropLast(name), x);
    }
  }

  // ---------------------------------------------------------------------------
  // The leaves of a value and their paths

  type Path = seq<string>

  /** Prefixes every path of `ls` with the component `c`. */
  function Under(c: string, ls: seq<(Path, Json)>): (r: seq<(Path, Json)>)
    ensures |r| == |ls|
    ensures forall j :: 0 <= j < |ls| ==> r[j] == ([c] + ls[j].0, ls[j].1)
  {
    seq(|ls|, j requires 0 <= j < |ls| => ([c] + ls[j].0, ls[j].1))
  }

  /** The scalar leaves of `x` in document order, each with its path: the
      dictionary keys and list positions (as decimal strings) leading to it. */
  function Leaves(x: Json): (r: seq<(Path, Json)>)
    ensures forall j :: 0 <= j < |r| ==> IsScalar(r[j].1)
    decreases x
  {
    match x
    case JObj(fs) => LeavesFields(fs)
    case JArr(xs) => LeavesItems(xs, 0)
    case _ => [([], x)]
  }

  function LeavesFields(fs: seq<(string, Json)>): (r: seq<(Path, Json)>)
    ensures forall j :: 0 <= j < |r| ==> IsScalar(r[j].1)
    decreases fs
  {
    if fs == [] then []
    else
      var (k, v) := fs[0];
      assert v < fs[0];
      Under(k, Leaves(v)) + LeavesFields(fs[1..])
  }

  function LeavesItems(xs: seq<Json>, i: nat): (r: seq<(Path, Json)>)
    ensures forall j :: 0 <= j < |r| ==> IsScalar(r[j].1)
    decreases xs
  {
    if xs == [] then []
    else Under(NatToString(i), Leaves(xs[0])) + LeavesItems(xs[1..], i + 1)
  }

  /** `'_'.join(p)` */
  function Join(p: Path): string {
    if p == [] then ""
    else if |p| == 1 then p[0]
    else p[0] + "_" + Join(p[1..])
  }

  /** Each leaf's path joined by `_`, the key the docstring promises. */
  function Joined(ls: seq<(Path, Json)>): (r: Dict<Json>)
    ensures |r| == |ls|
    ensures forall j :: 0 <= j < |ls| ==> r[j] == (Join(ls[j].0), ls[j].1)
  {
    seq(|ls|, j requires 0 <= j < |ls| => (Join(ls[j].0), ls[j].1))
  }

  /** Each component followed by `_`: the `name` the walk has built on
      reaching a leaf. */
  function Underscored(p: Path): string {
    if p == [] then "" else p[0] + "_" + Underscored(p[1..])
  }

  /** The keys the walk writes for leaves `ls` found below the prefix `name`. */
  function Keyed(name: string, ls: seq<(Path, Json)>): (r: Dict<Json>)
    ensures |r| == |ls|
    ensures forall j :: 0 <= j < |ls| ==> r[j] == (DropLast(name + Underscored(ls[j].0)), ls[j].1)
  {
    seq(|ls|, j requires 0 <= j < |ls| => (DropLast(name + Underscored(ls[j].0)), ls[j].1))
  }

  lemma {:induction false} DropLastUnderscored(p: Path)
    ensures DropLast(Underscored(p)) == Join(p)
  {
    if p != [] {
      if |p| == 1 {
        assert Underscored(p[1..]) == "";
        assert Underscored(p) == p[0] + "_";
      } else {
        DropLastUnderscored(p[1..]);
        var tail := Underscored(p[1..]);
        assert tail != "";
        assert Underscored(p) == (p[0] + "_") + tail;
        assert DropLast(Underscored(p)) == (p[0] + "_") + DropLast(tail);
      }
    }
  }

  lemma KeyedAppend(name: string, a: seq<(Path, Json)>, b: seq<(Path, Json)>)
    ensures Keyed(name, a + b) == Keyed(name, a) + Keyed(name, b)
  {
  }

  lemma KeyedUnder(name: string, c: string, ls: seq<(Path, Json)>)
    ensures Keyed(name, Under(c, ls)) == Keyed(name + c + "_", ls)
  {
    forall j | 0 <= j < |ls|
      ensures Keyed(name, Under(c, ls))[j] == Keyed(name + c + "_", ls)[j]
    {
      var p := ls[j].0;
      assert ([c] + p)[0] == c && ([c] + p)[1..] == p;
      assert name + Underscored([c] + p) == (name + c + "_") + Underscored(p);
    }
  }

  /** The walk writes the leaves of `x`, in document order, under the keys
      their paths give, into `out`. */
  lemma {:induction false} WalkLeaves(out: Dict<Json>, x: Json, name: string)
    ensures Walk(out, x, name) == PutAll(out, Keyed(name, Leaves(x)))
    decreases x
  {
    match x
    case JObj(fs) => WalkFieldsLeaves(out, fs, name);
    case JArr(xs) => WalkItemsLeaves(out, xs, name, 0);
    case _ => WalkScalarLeaves(out, x, name);
  }

  lemma WalkScalarLeaves(out: Dict<Json>, x: Json, name: string)
    requires IsScalar(x)
    ensures Walk(out, x, name) == PutAll(out, Keyed(name, Leaves(x)))
  {
    assert Leaves(x) == [([], x)];
    KeyedLeaf(name, x);
    PutAllSingle(out, DropLast(name), x);
  }

  lemma KeyedLeaf(name: string, x: Json)
    ensures Keyed(name, [([], x)]) == [(DropLast(name), x)]
  {
    assert Underscored([]) == "" && name + "" == name;
  }

  lemma {:induction false} WalkFieldsLeaves(out: Dict<Json>, fs: seq<(string, Json)>, name: string)
    ensures WalkFields(out, fs, name) == PutAll(out, Keyed(name, LeavesFields(fs)))
    decreases fs
  {
    if fs != [] {
      var (k, v) := fs[0];
      assert v < fs[0];
      var sub := name + k + "_";
      WalkLeaves(out, v, sub);
      WalkFieldsLeaves(Walk(out, v, sub), fs[1..], name);
      KeyedAppend(name, Under(k, Leaves(v)), LeavesFields(fs[1..]));
      KeyedUnder(name, k, Leaves(v));
      PutAllAppend(out, Keyed(sub, Leaves(v)), Keyed(name, LeavesFields(fs[1..])));
    }
  }

  lemma {:induction false} WalkItemsLeaves(out: Dict<Json>, xs: seq<Json>, name: string, i: nat)
    ensures WalkItems(out, xs, name, i) == PutAll(out, Keyed(name, LeavesItems(xs, i)))
    decreases xs
  {
    if xs != [] {
      var c := NatToString(i);
      var sub := name + c + "_";
      WalkLeaves(out, xs[0], sub);
      WalkItemsLeaves(Walk(out, xs[0], sub), xs[1..], name, i + 1);
      KeyedAppend(name, Under(c, Leaves(xs[0])), LeavesItems(xs[1..], i + 1));
      KeyedUnder(name, c, Leaves(xs[0]));
      PutAllAppend(out, Keyed(sub, Leaves(xs[0])), Keyed(name, LeavesItems(xs[1..], i + 1)));
    }
  }

  /** `flatten_json(y)` writes every scalar leaf of `y`, in document order,
      under its path joined by `_`; a later write to the same key overwrites
      the earlier one. */
  lemma FlattenIsLastWriteOfLeaves(y: Json)
    ensures Flatten(y) == PutAll([], Joined(Leaves(y)))
  {
    WalkLeaves([], y, "");
    var ls := Leaves(y);
    forall j | 0 <= j < |ls| ensures Keyed("", ls)[j] == Joined(ls)[j] {
      assert "" + Underscored(ls[j].0) == Underscored(ls[j].0);
      DropLastUnderscored(ls[j].0);
    }
    assert Keyed("", ls) == Joined(ls);
  }

  /** Each key of the output holds the value of the last leaf whose joined
      path is that key, and only such keys are present. */
  lemma FlattenLookup(y: Json, k: string)
    ensures Lookup(Flatten(y), k) == LastValue(Joined(Leaves(y)), k, None)
  {
    FlattenIsLastWriteOfLeaves(y);
    LookupPutAll([], Joined(Leaves(y)), k);
  }

  /** Every value of the output is a scalar, and no key occurs twice. */
  lemma FlattenIsFlat(y: Json)
    ensures IsFlatDict(Flatten(y))
  {
    var ls := Leaves(y);
    var js := Joined(ls);
    forall i | 0 <= i < |js| ensures IsScalar(js[i].1) {
      assert js[i].1 == ls[i].1;
    }
    var empty: Dict<Json> := [];
    assert IsFlatDict(empty);
    FlattenIsLastWriteOfLeaves(y);
    PutAllFlat(empty, js);
  }

  /** Flattening a dictionary of scalars with distinct keys returns it unchanged. */
  lemma FlatDictIsFixed(d: Dict<Json>)
    requires IsFlatDict(d)
    ensures Flatten(JObj(d)) == d
  {
    assert [] + d == d;
    WalkFlatFields([], d);
  }

  lemma {:induction false} WalkFlatFields(out: Dict<Json>, fs: seq<(string, Json)>)
    requires DistinctKeys(fs)
    requires forall i :: 0 <= i < |fs| ==> IsScalar(fs[i].1) && !HasKey(out, fs[i].0)
    ensures WalkFields(out, fs, "") == out + fs
    decreases |fs|
  {
    if fs != [] {
      var k, v := fs[0].0, fs[0].1;
      var out' := Walk(out, v, "" + k + "_");
      assert WalkFields(out, fs, "") == WalkFields(out', fs[1..], "");
      WalkFreshScalar(out, k, v);
      FreshKeysAfterPut(out, fs);
      WalkFlatFields(out', fs[1..]);
      AppendFirst(out, fs);
    }
  }

  lemma AppendFirst<T>(a: seq<T>, s: seq<T>)
    requires s != []
    ensures (a + [s[0]]) + s[1..] == a + s
  {
  }

  lemma WalkFreshScalar(out: Dict<Json>, k: string, v: Json)
    requires IsScalar(v) && !HasKey(out, k)
    ensures Walk(out, v, "" + k + "_") == out + [(k, v)]
  {
    assert DropLast("" + k + "_") == k by {
      assert "" + k + "_" == k + "_";
    }
  }

  lemma FreshKeysAfterPut(out: Dict<Json>, fs: seq<(string, Json)>)
    requires fs != [] && DistinctKeys(fs)
    requires forall i :: 0 <= i < |fs| ==> IsScalar(fs[i].1) && !HasKey(out, fs[i].0)
    ensures DistinctKeys(fs[1..])
    ensures forall i :: 0 <= i < |fs[1..]| ==> IsScalar(fs[1..][i].1) && !HasKey(out + [fs[0]], fs[1..][i].0)
  {
    DistinctKeysTail(fs);
    var out' := Put(out, fs[0].0, fs[0].1);
    assert out' == out + [fs[0]];
    forall i | 0 <= i < |fs[1..]|
      ensures IsScalar(fs[1..][i].1) && !HasKey(out', fs[1..][i].0)
    {
      assert fs[1..][i] == fs[i + 1];
      assert Lookup(out', fs[i + 1].0) == Lookup(out, fs[i + 1].0);
    }
  }

  /** Flattening is idempotent: its output, flattened again, is unchanged. */
  lemma FlattenIdempotent(y: Json)
    ensures Flatten(JObj(Flatten(y))) == Flatten(y)
  {
    FlattenIsFlat(y);
    FlatDictIsFixed(Flatten(y));
  }

  /** A top-level scalar is written under the empty key. */
  lemma FlattenScalar(x: Json)
    requires IsScalar(x)
    ensures Flatten(x) == [("", x)]
  {
  }

  lemma {:induction false} WalkFieldsAppend(out: Dict<Json>, fs: seq<(string, Json)>, f: (string, Json), name: string)
    ensures WalkFields(out, fs + [f], name) == Walk(WalkFields(out, fs, name), f.1, name + f.0 + "_")
    decreases |fs|
  {
    if fs == [] {
      assert ([] + [f])[1..] == [];
      assert [] + [f] == [f];
    } else {
      assert (fs + [f])[0] == fs[0] && (fs + [f])[1..] == fs[1..] + [f];
      WalkFieldsAppend(Walk(out, fs[0].1, name + fs[0].0 + "_"), fs[1..], f, name);
    }
  }

  lemma {:induction false} WalkItemsSplit(out: Dict<Json>, xs: seq<Json>, ys: seq<Json>, name: string, i: nat)
    ensures WalkItems(out, xs + ys, name, i) == WalkItems(WalkItems(out, xs, name, i), ys, name, i + |xs|)
    decreases |xs|
  {
    if xs == [] {
      assert [] + ys == ys;
    } else {
      var rest := xs[1..];
      var out' := Walk(out, xs[0], name + NatToString(i) + "_");
      assert (xs + ys)[0] == xs[0] && (xs + ys)[1..] == rest + ys;
      assert WalkItems(out, xs + ys, name, i) == WalkItems(out', rest + ys, name, i + 1);
      assert WalkItems(out, xs, name, i) == WalkItems(out', rest, name, i + 1);
      WalkItemsSplit(out', rest, ys, name, i + 1);
      assert i + 1 + |rest| == i + |xs|;
    }
  }

  lemma {:induction false} WalkFieldsSplit(out: Dict<Json>, fs: seq<(string, Json)>, gs: seq<(string, Json)>, name: string)
    ensures WalkFields(out, fs + gs, name) == WalkFields(WalkFields(out, fs, name), gs, name)
    decreases |fs|
  {
    if fs == [] {
      assert [] + gs == gs;
    } else {
      assert fs + gs == [fs[0]] + (fs[1..] + gs);
      WalkFieldsSplit(Walk(out, fs[0].1, name + fs[0].0 + "_"), fs[1..], gs, name);
    }
  }

  /** A key whose value is an empty dict or list contributes no entries,
      wherever it sits among the keys of a dict, whatever has been written
      before and under whatever prefix the dict itself lies. */
  lemma EmptyFieldContributesNothing(out: Dict<Json>, fs: seq<(string, Json)>, k: string, e: Json,
                                     gs: seq<(string, Json)>, name: string)
    requires e == JObj([]) || e == JArr([])
    ensures Walk(out, JObj(fs + [(k, e)] + gs), name) == Walk(out, JObj(fs + gs), name)
  {
    WalkFieldsAppend(out, fs, (k, e), name);
    WalkEmpty(WalkFields(out, fs, name), e, name + k + "_");
    WalkFieldsSplit(out, fs + [(k, e)], gs, name);
    WalkFieldsSplit(out, fs, gs, name);
  }

  /** An empty dict or list as a list element contributes no entries, but
      still takes up its position: the elements after it are numbered as if
      it held leaves. This holds at any depth, whatever has been written
      before and under whatever prefix the list lies. */
  lemma EmptyItemContributesNothing(out: Dict<Json>, xs: seq<Json>, e: Json, ys: seq<Json>, name: string)
    requires e == JObj([]) || e == JArr([])
    ensures Walk(out, JArr(xs + [e] + ys), name)
         == WalkItems(Walk(out, JArr(xs), name), ys, name, |xs| + 1)
  {
    AppendAssoc(xs, [e], ys);
    WalkItemsSplit(out, xs, [e] + ys, name, 0);
    WalkSkipEmpty(WalkItems(out, xs, name, 0), e, ys, name, |xs|);
  }

  lemma WalkSkipEmpty(out: Dict<Json>, e: Json, ys: seq<Json>, name: string, j: nat)
    requires e == JObj([]) || e == JArr([])
    ensures WalkItems(out, [e] + ys, name, j) == WalkItems(out, ys, name, j + 1)
  {
    assert ([e] + ys)[0] == e && ([e] + ys)[1..] == ys;
    WalkEmpty(out, e, name + NatToString(j) + "_");
  }

  lemma WalkEmpty(out: Dict<Json>, e: Json, name: string)
    requires e == JObj([]) || e == JArr([])
    ensures Walk(out, e, name) == out
  {
  }

  // Steps of a concrete walk, one at a time.

  lemma WalkLeaf(out: Dict<Json>, x: Json, name: string, key: string)
    requires IsScalar(x) && DropLast(name) == key && !HasKey(out, key)
    ensures Walk(out, x, name) == out + [(key, x)]
  {
  }

  lemma SingleKeyMisses(k: string, v: Json, key: string)
    requires k != key
    ensures !HasKey([(k, v)], key)
  {
  }

  lemma WalkTwoFields(out: Dict<Json>, f: (string, Json), g: (string, Json), name: string)
    ensures WalkFields(out, [f, g], name)
         == Walk(Walk(out, f.1, name + f.0 + "_"), g.1, name + g.0 + "_")
  {
    assert [f, g][0] == f && [f, g][1..] == [g];
    var mid := Walk(out, f.1, name + f.0 + "_");
    assert WalkFields(out, [f, g], name) == WalkFields(mid, [g], name);
    WalkOneField(mid, g, name);
  }

  lemma WalkOneField(out: Dict<Json>, f: (string, Json), name: string)
    ensures WalkFields(out, [f], name) == Walk(out, f.1, name + f.0 + "_")
  {
    assert [f][1..] == [];
  }

  /** The docstring's example: {"a": {"b": 1, "c": {"d": 2}}} gives
      {"a_b": 1, "a_c_d": 2}, here with any scalars in place of 1 and 2. */
  lemma DocstringExample(one: Json, two: Json)
    requires IsScalar(one) && IsScalar(two)
    ensures Flatten(JObj([("a", JObj([("b", one), ("c", JObj([("d", two)]))]))]))
         == [("a_b", one), ("a_c_d", two)]
  {
    var mid := [("b", one), ("c", JObj([("d", two)]))];
    assert "" + "a" + "_" == "a_";
    WalkOneField([], ("a", JObj(mid)), "");
    DocstringMiddle(one, two);
  }

  lemma DocstringMiddle(one: Json, two: Json)
    requires IsScalar(one) && IsScalar(two)
    ensures Walk([], JObj([("b", one), ("c", JObj([("d", two)]))]), "a_") == [("a_b", one), ("a_c_d", two)]
  {
    var inner := [("d", two)];
    WalkTwoFields([], ("b", one), ("c", JObj(inner)), "a_");
    assert "a_" + "b" + "_" == "a_b_" && DropLast("a_b_") == "a_b";
    assert "a_" + "c" + "_" == "a_c_";
    WalkLeaf([], one, "a_b_", "a_b");
    DocstringInner(one, two);
  }

  lemma DocstringInner(one: Json, two: Json)
    requires IsScalar(two)
    ensures Walk([("a_b", one)], JObj([("d", two)]), "a_c_") == [("a_b", one), ("a_c_d", two)]
  {
    var first := [("a_b", one)];
    WalkOneField(first, ("d", two), "a_c_");
    assert "a_c_" + "d" + "_" == "a_c_d_" && DropLast("a_c_d_") == "a_c_d";
    assert |"a_b"| != |"a_c_d"|;
    SingleKeyMisses("a_b", one, "a_c_d");
    WalkLeaf(first, two, "a_c_d_", "a_c_d");
  }

  lemma WalkTwoItems(out: Dict<Json>, x: Json, y: Json, name: string)
    ensures WalkItems(out, [x, y], name, 0)
         == Walk(Walk(out, x, name + NatToString(0) + "_"), y, name + NatToString(1) + "_")
  {
    assert [x, y][0] == x && [x, y][1..] == [y] && [y][1..] == [];
    var mid := Walk(out, x, name + NatToString(0) + "_");
    assert WalkItems(out, [x, y], name, 0) == WalkItems(mid, [y], name, 1);
    assert WalkItems(mid, [y], name, 1) == WalkItems(Walk(mid, y, name + NatToString(1) + "_"), [], name, 2);
  }

  /** List positions become decimal keys, and a later leaf with the same key
      overwrites the earlier value in place: {"a": [x, y], "a_0": z} gives
      {"a_0": z, "a_1": y}. */
  lemma CollisionExample(x: Json, y: Json, z: Json)
    requires IsScalar(x) && IsScalar(y) && IsScalar(z)
    ensures Flatten(JObj([("a", JArr([x, y])), ("a_0", z)])) == [("a_0", z), ("a_1", y)]
  {
    WalkTwoFields([], ("a", JArr([x, y])), ("a_0", z), "");
    assert "" + "a" + "_" == "a_" && "" + "a_0" + "_" == "a_0_";
    CollisionList(x, y);
    OverwriteFirst([("a_0", x), ("a_1", y)], z);
  }

  lemma CollisionList(x: Json, y: Json)
    requires IsScalar(x) && IsScalar(y)
    ensures Walk([], JArr([x, y]), "a_") == [("a_0", x), ("a_1", y)]
  {
    IndexNames();
    assert "a_0"[2] != "a_1"[2];
    WalkTwoScalars(x, y, "a_", "a_0", "a_1");
  }

  /** A two-element list of scalars below `name`, walked into an empty
      dictionary, writes its elements under keys k0 and k1. */
  lemma WalkTwoScalars(x: Json, y: Json, name: string, k0: string, k1: string)
    requires IsScalar(x) && IsScalar(y)
    requires DropLast(name + NatToString(0) + "_") == k0
    requires DropLast(name + NatToString(1) + "_") == k1
    requires k0 != k1
    ensures Walk([], JArr([x, y]), name) == [(k0, x), (k1, y)]
  {
    var first := [(k0, x)];
    assert Walk([], JArr([x, y]), name) == WalkItems([], [x, y], name, 0);
    WalkTwoItems([], x, y, name);
    WalkLeaf([], x, name + NatToString(0) + "_", k0);
    assert Walk([], x, name + NatToString(0) + "_") == first;
    SingleKeyMisses(k0, x, k1);
    WalkLeaf(first, y, name + NatToString(1) + "_", k1);
  }

  lemma IndexNames()
    ensures "a_" + NatToString(0) + "_" == "a_0_" && DropLast("a_0_") == "a_0"
    ensures "a_" + NatToString(1) + "_" == "a_1_" && DropLast("a_1_") == "a_1"
  {
    assert NatToString(0) == "0" && NatToString(1) == "1";
  }

  lemma OverwriteFirst(d: Dict<Json>, v: Json)
    requires |d| == 2 && d[0].0 == "a_0" && IsScalar(v)
    ensures Walk(d, v, "a_0_") == [("a_0", v), d[1]]
  {
    assert DropLast("a_0_") == "a_0";
    assert Put(d, "a_0", v) == [("a_0", v)] + d[1..];
    assert d[1..] == [d[1]];
  }
}
