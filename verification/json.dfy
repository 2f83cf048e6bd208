/**
 * Python values as they come out of a decoded JSON body, with the pieces of
 * Python's built-in behaviour the paginator relies on: dictionaries that keep
 * insertion order, truthiness, integer arithmetic (where `bool` counts as an
 * `int`) and `str()` of a value.
 */
module Json {

  datatype Option<T> = None | Some(value: T)

  /** A decoded JSON value. A dictionary is an ordered sequence of (key, value)
      pairs, so that Python's insertion order survives. Floats are not modelled. */
  datatype Json =
    | JNull
    | JBool(b: bool)
    | JNum(n: int)
    | JStr(s: string)
    | JArr(items: seq<Json>)
    | JObj(fields: seq<(string, Json)>)

  /** Neither a dict nor a list: what the flattener writes out as a leaf. */
  predicate IsScalar(x: Json) {
    !x.JArr? && !x.JObj?
  }

  /** Python's truthiness: None, False, 0, "", [] and {} are falsy. */
  predicate Truthy(x: Json) {
    match x
    case JNull => false
    case JBool(b) => b
    case JNum(n) => n != 0
    case JStr(s) => s != ""
    case JArr(xs) => xs != []
    case JObj(fs) => fs != []
  }

  /** The integer a value stands for in arithmetic (`True` is 1, `False` is 0);
      None when Python's `-` or `//` would raise a TypeError. */
  function IntValue(x: Json): Option<int> {
    match x
    case JNum(n) => Some(n)
    case JBool(b) => Some(if b then 1 else 0)
    case _ => None
  }

  // ---------------------------------------------------------------------------
  // Dictionaries with insertion order

  type Dict<V> = seq<(string, V)>

  predicate HasKey<V>(d: Dict<V>, k: string) {
    exists i :: 0 <= i < |d| && d[i].0 == k
  }

  predicate DistinctKeys<V>(d: Dict<V>) {
    forall i, j :: 0 <= i < j < |d| ==> d[i].0 != d[j].0
  }

  lemma DistinctKeysTail<V>(d: Dict<V>)
    requires d != [] && DistinctKeys(d)
    ensures DistinctKeys(d[1..])
  {
    forall i, j | 0 <= i < j < |d[1..]| ensures d[1..][i].0 != d[1..][j].0 {
      assert d[1..][i] == d[i + 1] && d[1..][j] == d[j + 1];
    }
  }

  /** A single-level dictionary: distinct keys, every value a scalar. */
  predicate IsFlatDict(d: Dict<Json>) {
    DistinctKeys(d) && forall i :: 0 <= i < |d| ==> IsScalar(d[i].1)
  }

  /** `d[k]` when `k in d`, and nothing otherwise: the value stored under the
      first occurrence of `k`. */
  function Lookup<V>(d: Dict<V>, k: string): (r: Option<V>)
    ensures r.Some? <==> HasKey(d, k)
    ensures r.Some? ==> exists i :: 0 <= i < |d| && d[i] == (k, r.value)
  {
    if d == [] then None
    else if d[0].0 == k then Some(d[0].1)
    else
      var r := Lookup(d[1..], k);
      assert HasKey(d[1..], k) ==> HasKey(d, k) by {
        if HasKey(d[1..], k) {
          var i :| 0 <= i < |d[1..]| && d[1..][i].0 == k;
          assert d[i + 1].0 == k;
        }
      }
      assert r.Some? ==> exists i :: 0 <= i < |d| && d[i] == (k, r.value) by {
        if r.Some? {
          var i :| 0 <= i < |d[1..]| && d[1..][i] == (k, r.value);
          assert d[i + 1] == (k, r.value);
        }
      }
      r
  }

  /** `d.get(k)`: the stored value, or None (JSON null) when the key is absent. */
  function Get(d: Dict<Json>, k: string): (r: Json)
    ensures HasKey(d, k) ==> exists i :: 0 <= i < |d| && d[i] == (k, r)
    ensures !HasKey(d, k) ==> r == JNull
  {
    match Lookup(d, k)
    case Some(v) => v
    case None => JNull
  }

  /** `d[k] = v`: an existing key keeps its position and takes the new value;
      a new key is appended at the end. */
  function Put<V>(d: Dict<V>, k: string, v: V): (r: Dict<V>)
    ensures Lookup(r, k) == Some(v)
    ensures forall k' :: k' != k ==> Lookup(r, k') == Lookup(d, k')
    ensures !HasKey(d, k) ==> r == d + [(k, v)]
    ensures HasKey(d, k) ==>
              |r| == |d| && forall i :: 0 <= i < |d| ==> r[i].0 == d[i].0 && (r[i] == d[i] || r[i] == (k, v))
  {
    if d == [] then [(k, v)]
    else if d[0].0 == k then
      assert HasKey(d, k) by { assert d[0].0 == k; }
      [(k, v)] + d[1..]
    else
      HasKeyTail(d, k);
      [d[0]] + Put(d[1..], k, v)
  }

  lemma HasKeyTail<V>(d: Dict<V>, k: string)
    requires d != [] && d[0].0 != k
    ensures HasKey(d, k) <==> HasKey(d[1..], k)
  {
    if HasKey(d, k) {
      var i :| 0 <= i < |d| && d[i].0 == k;
      assert i > 0 && d[1..][i - 1].0 == k;
    }
    if HasKey(d[1..], k) {
      var i :| 0 <= i < |d[1..]| && d[1..][i].0 == k;
      assert d[i + 1].0 == k;
    }
  }

  /** Every pair after `d[k] = v` is the new one or one that was there before. */
  lemma PutEntries<V>(d: Dict<V>, k: string, v: V)
    ensures forall i :: 0 <= i < |Put(d, k, v)| ==> Put(d, k, v)[i] == (k, v) || Put(d, k, v)[i] in d
  {
    var r := Put(d, k, v);
    if HasKey(d, k) {
      assert forall i :: 0 <= i < |r| ==> r[i] == (k, v) || r[i] == d[i];
    }
  }

  /** `d[k] = v` never introduces a duplicate key. */
  lemma PutDistinct<V>(d: Dict<V>, k: string, v: V)
    ensures DistinctKeys(d) ==> DistinctKeys(Put(d, k, v))
  {
    var r := Put(d, k, v);
    if DistinctKeys(d) && !HasKey(d, k) {
      forall i, j | 0 <= i < j < |r| ensures r[i].0 != r[j].0 {
        if j == |d| {
          assert r[i] == d[i];
        } else {
          assert r[i] == d[i] && r[j] == d[j];
        }
      }
    }
  }

  /** Writes the pairs of `ls` into `d` one after the other. */
  function PutAll<V>(d: Dict<V>, ls: Dict<V>): (r: Dict<V>)
    ensures DistinctKeys(d) ==> DistinctKeys(r)
    ensures forall i :: 0 <= i < |r| ==> r[i] in d || r[i] in ls
    decreases |ls|
  {
    if ls == [] then d
    else
      var d' := Put(d, ls[0].0, ls[0].1);
      PutEntries(d, ls[0].0, ls[0].1);
      PutDistinct(d, ls[0].0, ls[0].1);
      var r := PutAll(d', ls[1..]);
      assert forall i :: 0 <= i < |r| ==> r[i] in d || r[i] in ls by {
        forall i | 0 <= i < |r| ensures r[i] in d || r[i] in ls {
          if r[i] in ls[1..] { assert r[i] in ls; }
        }
      }
      r
  }

  lemma PutAllSingle<V>(d: Dict<V>, k: string, v: V)
    ensures PutAll(d, [(k, v)]) == Put(d, k, v)
  {
    assert [(k, v)][1..] == [];
  }

  /** The value of the LAST pair of `ls` whose key is `k`, or `dflt` when no
      pair has that key: the reference for "a later write wins". */
  function LastValue<V>(ls: Dict<V>, k: string, dflt: Option<V>): Option<V> {
    if ls == [] then dflt
    else if ls[|ls| - 1].0 == k then Some(ls[|ls| - 1].1)
    else LastValue(ls[..|ls| - 1], k, dflt)
  }

  lemma {:induction false} LastValueAppend<V>(a: Dict<V>, b: Dict<V>, k: string, dflt: Option<V>)
    ensures LastValue(a + b, k, dflt) == LastValue(b, k, LastValue(a, k, dflt))
    decreases |b|
  {
    if b == [] {
      assert a + b == a;
    } else {
      assert (a + b)[..|a + b| - 1] == a + b[..|b| - 1];
      LastValueAppend(a, b[..|b| - 1], k, dflt);
    }
  }

  lemma {:induction false} PutAllAppend<V>(d: Dict<V>, a: Dict<V>, b: Dict<V>)
    ensures PutAll(d, a + b) == PutAll(PutAll(d, a), b)
    decreases |a|
  {
    if a == [] {
      assert a + b == b;
    } else {
      assert (a + b)[0] == a[0] && (a + b)[1..] == a[1..] + b;
      PutAllAppend(Put(d, a[0].0, a[0].1), a[1..], b);
    }
  }

  /** Last write wins: after writing `ls` into `d`, key `k` holds the value of
      the last pair of `ls` with that key, and its old value if there is none. */
  lemma {:induction false} LookupPutAll<V>(d: Dict<V>, ls: Dict<V>, k: string)
    ensures Lookup(PutAll(d, ls), k) == LastValue(ls, k, Lookup(d, k))
    decreases |ls|
  {
    if ls != [] {
      var d' := Put(d, ls[0].0, ls[0].1);
      assert PutAll(d, ls) == PutAll(d', ls[1..]);
      LookupPutAll(d', ls[1..], k);
      var first := LastValue([ls[0]], k, Lookup(d, k));
      assert first == Lookup(d', k) by {
        LastValueSingle(ls[0], k, Lookup(d, k));
        if ls[0].0 != k {
          assert Lookup(d', k) == Lookup(d, k);
        }
      }
      LastValueAppend([ls[0]], ls[1..], k, Lookup(d, k));
      HeadTail(ls);
    }
  }

  lemma AppendAssoc<T>(a: seq<T>, b: seq<T>, c: seq<T>)
    ensures a + (b + c) == (a + b) + c
  {
  }

  lemma HeadTail<T>(s: seq<T>)
    requires s != []
    ensures [s[0]] + s[1..] == s
  {
  }

  lemma LastValueSingle<V>(p: (string, V), k: string, dflt: Option<V>)
    ensures LastValue([p], k, dflt) == if p.0 == k then Some(p.1) else dflt
  {
    assert [p][..0] == [];
  }

  /** Writing pairs with scalar values into a flat dictionary keeps it flat. */
  lemma PutAllFlat(d: Dict<Json>, ls: Dict<Json>)
    requires IsFlatDict(d)
    requires forall i :: 0 <= i < |ls| ==> IsScalar(ls[i].1)
    ensures IsFlatDict(PutAll(d, ls))
  {
    var r := PutAll(d, ls);
    forall i | 0 <= i < |r| ensures IsScalar(r[i].1) {
      if r[i] in d {
        var j :| 0 <= j < |d| && d[j] == r[i];
      } else {
        var j :| 0 <= j < |ls| && ls[j] == r[i];
      }
    }
  }

  // ---------------------------------------------------------------------------
  // str() of integers

  function DigitChar(d: nat): (c: char)
    requires d < 10
    ensures '0' <= c <= '9'
  {
    ('0' as int + d) as char
  }

  predicate IsDigits(s: string) {
    forall i :: 0 <= i < |s| ==> '0' <= s[i] <= '9'
  }

  /** `str(n)` for a natural number: its decimal digits, without leading zeros. */
  function NatToString(n: nat): (s: string)
    ensures |s| >= 1 && IsDigits(s)
    ensures s[0] == '0' ==> n == 0 && s == "0"
    decreases n
  {
    if n < 10 then [DigitChar(n)]
    else NatToString(n / 10) + [DigitChar(n % 10)]
  }

  /** The number a string of decimal digits denotes. */
  function DigitsValue(s: string): nat
    requires IsDigits(s)
  {
    if s == [] then 0
    else 10 * DigitsValue(s[..|s| - 1]) + (s[|s| - 1] as int - '0' as int)
  }

  lemma {:induction false} NatToStringRoundTrip(n: nat)
    ensures DigitsValue(NatToString(n)) == n
    decreases n
  {
    if n >= 10 {
      var s := NatToString(n);
      assert s[..|s| - 1] == NatToString(n / 10);
      NatToStringRoundTrip(n / 10);
    }
  }

  /** Distinct list positions get distinct keys. */
  lemma NatToStringInjective(m: nat, n: nat)
    requires NatToString(m) == NatToString(n)
    ensures m == n
  {
    NatToStringRoundTrip(m);
    NatToStringRoundTrip(n);
  }

  /** `str(i)` for any integer. */
  function IntToString(i: int): string {
    if i < 0 then "-" + NatToString(-i) else NatToString(i)
  }

  // ---------------------------------------------------------------------------
  // str() and repr() of a value, as an f-string renders it

  /** `str(x)`. Containers render through `repr`; the escaping `repr` applies
      to quotes, backslashes and unprintable characters inside strings is not
      modelled. */
  function PyStr(x: Json): (r: string)
    ensures x.JStr? ==> r == x.s
    ensures x.JNull? ==> r == "None"
    ensures x.JBool? ==> r == if x.b then "True" else "False"
    ensures x.JNum? && x.n >= 0 ==> r == NatToString(x.n) && DigitsValue(r) == x.n
    ensures x.JNum? && x.n < 0 ==> r == "-" + NatToString(-x.n) && DigitsValue(r[1..]) == -x.n
  {
    match x
    case JNull => "None"
    case JBool(b) => if b then "True" else "False"
    case JNum(n) =>
      NatToStringRoundTrip(if n < 0 then -n else n);
      assert n < 0 ==> IntToString(n)[1..] == NatToString(-n);
      IntToString(n)
    case JStr(s) => s
    case _ => PyRepr(x)
  }

  function PyRepr(x: Json): string
    decreases x, 1
  {
    match x
    case JNull => "None"
    case JBool(b) => if b then "True" else "False"
    case JNum(n) => IntToString(n)
    case JStr(s) => "'" + s + "'"
    case JArr(xs) => "[" + ReprItems(xs) + "]"
    case JObj(fs) => "{" + ReprFields(fs) + "}"
  }

  function ReprItems(xs: seq<Json>): string
    decreases xs, 0
  {
    if xs == [] then ""
    else if |xs| == 1 then PyRepr(xs[0])
    else PyRepr(xs[0]) + ", " + ReprItems(xs[1..])
  }

  function ReprFields(fs: seq<(string, Json)>): string
    decreases fs, 0
  {
    if fs == [] then ""
    else
      var (k, v) := fs[0];
      assert v < fs[0];
      var entry := "'" + k + "': " + PyRepr(v);
      if |fs| == 1 then entry else entry + ", " + ReprFields(fs[1..])
  }
}
