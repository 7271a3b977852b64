/** JavaScript values and plain objects, as far as the MWS client uses them:
    property lookup and assignment on insertion-ordered objects, `_.extend`,
    string coercion, truthiness, global `String.prototype.replace`, and the
    string order used by `Array.prototype.sort`. */
module JsValues {

  datatype Option<T> = None | Some(value: T)

  datatype Result<T, E> = Success(value: T) | Failure(error: E)

  /** A JavaScript value: `undefined`, a boolean, a string, an (integral)
      number or a plain object with its own properties in insertion order. */
  datatype Value = Undefined | Bool(b: bool) | Str(s: string) | Num(n: int) | Obj(fields: seq<(string, Value)>)

  /** A plain object: its own enumerable properties in insertion order, which
      is also the order of `for…in` for the non-numeric keys used here.
      Every object the model builds satisfies DistinctKeys. */
  type JsObject = seq<(string, Value)>

  function Keys(o: JsObject): seq<string>
  {
    seq(|o|, i requires 0 <= i < |o| => o[i].0)
  }

  predicate DistinctKeys(o: JsObject)
  {
    forall i, j :: 0 <= i < j < |o| ==> o[i].0 != o[j].0
  }

  /** `_.has(o, k)`: an own property, even one whose value is `undefined`. */
  predicate Has(o: JsObject, k: string)
  {
    exists i | 0 <= i < |o| :: o[i].0 == k
  }

  /** The position of property `k` at or after `from`, if any. */
  function FindFrom(o: JsObject, k: string, from: nat): (r: Option<nat>)
    requires from <= |o|
    ensures r.Some? ==> from <= r.value < |o| && o[r.value].0 == k
    ensures r.Some? ==> forall j :: from <= j < r.value ==> o[j].0 != k
    ensures r.None? ==> forall j :: from <= j < |o| ==> o[j].0 != k
    decreases |o| - from
  {
    if from == |o| then None
    else if o[from].0 == k then Some(from)
    else FindFrom(o, k, from + 1)
  }

  function Find(o: JsObject, k: string): (r: Option<nat>)
    ensures r.Some? <==> Has(o, k)
    ensures r.Some? ==> r.value < |o| && o[r.value].0 == k
    ensures DistinctKeys(o) ==> forall i :: 0 <= i < |o| && o[i].0 == k ==> r == Some(i)
  {
    FindFrom(o, k, 0)
  }

  /** `o[k]`: the property's value, `undefined` when it is missing. */
  function Get(o: JsObject, k: string): Value
  {
    match Find(o, k)
    case None => Undefined
    case Some(i) => o[i].1
  }

  lemma GetAt(o: JsObject, i: nat)
    requires DistinctKeys(o) && i < |o|
    ensures Has(o, o[i].0) && Get(o, o[i].0) == o[i].1
  {
  }

  lemma GetMissing(o: JsObject, k: string)
    requires !Has(o, k)
    ensures Get(o, k) == Undefined
  {
  }

  /** Property assignment `o[k] = v`: an existing property keeps its place,
      a new one is appended. */
  function Put(o: JsObject, k: string, v: Value): (r: JsObject)
    ensures Has(r, k) && Get(r, k) == v
    ensures forall j :: j != k ==> (Has(r, j) <==> Has(o, j))
    ensures forall j :: j != k ==> Get(r, j) == Get(o, j)
    ensures Has(o, k) ==> Keys(r) == Keys(o)
    ensures !Has(o, k) ==> r == o + [(k, v)]
    ensures DistinctKeys(o) ==> DistinctKeys(r)
  {
    match Find(o, k)
    case Some(i) =>
      var r := o[i := (k, v)];
      assert Keys(r) == Keys(o);
      SameKeysSameFind(o, r);
      assert forall j :: Has(r, j) <==> Find(r, j).Some?;
      assert forall j :: Has(o, j) <==> Find(o, j).Some?;
      r
    case None =>
      var r := o + [(k, v)];
      assert Keys(r) == Keys(o) + [k];
      assert r[|o|].0 == k;
      forall j | j != k ensures FindFrom(r, j, 0) == FindFrom(o, j, 0) && (Has(r, j) <==> Has(o, j)) {
        AppendFind(o, k, v, j, 0);
        if Has(r, j) {
          var x :| 0 <= x < |r| && r[x].0 == j;
          assert x < |o| && o[x] == r[x];
        }
        if Has(o, j) {
          var x :| 0 <= x < |o| && o[x].0 == j;
          assert r[x] == o[x];
        }
      }
      r
  }

  /** Assignment leaves every other property where and as it was. */
  lemma PutFrame(o: JsObject, k: string, v: Value)
    ensures |o| <= |Put(o, k, v)|
    ensures forall i :: 0 <= i < |o| && o[i].0 != k ==> Put(o, k, v)[i] == o[i]
  {
  }

  /** Assigning an existing property of a well-formed object replaces it in place. */
  lemma PutAt(o: JsObject, i: nat, v: Value)
    requires DistinctKeys(o) && i < |o|
    ensures Put(o, o[i].0, v) == o[i := (o[i].0, v)]
  {
  }

  lemma SameKeysSameFind(o: JsObject, p: JsObject)
    requires Keys(o) == Keys(p)
    ensures forall k :: Find(o, k) == Find(p, k)
  {
    forall k ensures Find(o, k) == Find(p, k) {
      SameKeysFindFrom(o, p, k, 0);
    }
  }

  lemma {:induction false} SameKeysFindFrom(o: JsObject, p: JsObject, k: string, from: nat)
    requires Keys(o) == Keys(p) && from <= |o|
    ensures FindFrom(o, k, from) == FindFrom(p, k, from)
    decreases |o| - from
  {
    assert |o| == |Keys(o)| == |p|;
    if from < |o| {
      assert o[from].0 == Keys(o)[from] == Keys(p)[from] == p[from].0;
      SameKeysFindFrom(o, p, k, from + 1);
    }
  }

  lemma {:induction false} AppendFind(o: JsObject, k: string, v: Value, j: string, from: nat)
    requires j != k && from <= |o|
    ensures FindFrom(o + [(k, v)], j, from) == FindFrom(o, j, from)
    decreases |o| - from
  {
    var r := o + [(k, v)];
    if from < |o| {
      assert r[from] == o[from];
      AppendFind(o, k, v, j, from + 1);
    } else {
      assert r[from].0 == k;
    }
  }

  /** The object as a finite map from property names to values. */
  function ToMap(o: JsObject): (m: map<string, Value>)
    ensures forall k :: k in m <==> Has(o, k)
    ensures forall k :: k in m ==> m[k] == Get(o, k)
  {
    assert forall k :: Has(o, k) ==> k in Keys(o) by {
      forall k | Has(o, k) ensures k in Keys(o) {
        var i :| 0 <= i < |o| && o[i].0 == k;
        assert Keys(o)[i] == k;
      }
    }
    map k | k in Keys(o) :: Get(o, k)
  }

  /** `_.extend(o, src)`: every property of `src`, in order, assigned onto `o`. */
  function Assign(o: JsObject, src: JsObject): JsObject
    decreases |src|
  {
    if src == [] then o
    else
      var last := src[|src| - 1];
      Put(Assign(o, src[..|src| - 1]), last.0, last.1)
  }

  /** What `_.extend` leaves behind: every property of either object, the
      value from `src` wherever it has one, the order of `o` followed by the
      new properties of `src`. */
  lemma AssignSpec(o: JsObject, src: JsObject)
    requires DistinctKeys(o) && DistinctKeys(src)
    ensures DistinctKeys(Assign(o, src))
    ensures forall k :: Has(Assign(o, src), k) <==> Has(o, k) || Has(src, k)
    ensures forall k :: Get(Assign(o, src), k) == if Has(src, k) then Get(src, k) else Get(o, k)
    ensures (forall k :: Has(src, k) ==> !Has(o, k)) ==> Assign(o, src) == o + src
  {
    AssignProperties(o, src);
    if forall k :: Has(src, k) ==> !Has(o, k) {
      AssignDisjoint(o, src);
    }
  }

  lemma {:induction false} AssignProperties(o: JsObject, src: JsObject)
    requires DistinctKeys(o) && DistinctKeys(src)
    ensures DistinctKeys(Assign(o, src))
    ensures forall k :: Has(Assign(o, src), k) <==> Has(o, k) || Has(src, k)
    ensures forall k :: Get(Assign(o, src), k) == if Has(src, k) then Get(src, k) else Get(o, k)
    decreases |src|
  {
    if src != [] {
      var init := src[..|src| - 1];
      var last := src[|src| - 1];
      assert src == init + [last];
      assert DistinctKeys(init);
      AssignProperties(o, init);
      forall k | k != last.0
        ensures Get(src, k) == Get(init, k) && (Has(src, k) <==> Has(init, k))
      {
        InitGet(init, last, k);
      }
      var r0 := Assign(o, init);
      forall k ensures Get(Assign(o, src), k) == if Has(src, k) then Get(src, k) else Get(o, k) {
        if k != last.0 {
          assert Get(Assign(o, src), k) == Get(r0, k);
        }
      }
    }
  }

  /** With no shared property, `_.extend` appends `src` to `o`. */
  lemma {:induction false} AssignDisjoint(o: JsObject, src: JsObject)
    requires DistinctKeys(src)
    requires forall k :: Has(src, k) ==> !Has(o, k)
    ensures Assign(o, src) == o + src
    decreases |src|
  {
    if src != [] {
      var init := src[..|src| - 1];
      var last := src[|src| - 1];
      assert src == init + [last];
      HasConcat(init, [last]);
      AssignDisjoint(o, init);
      assert Has(src, last.0) by {
        assert src[|src| - 1].0 == last.0;
      }
      AppendNewProperty(o, init, last);
    }
  }

  lemma AppendNewProperty(o: JsObject, init: JsObject, last: (string, Value))
    requires DistinctKeys(init + [last]) && !Has(o, last.0)
    ensures Put(o + init, last.0, last.1) == o + (init + [last])
  {
    HasConcat(o, init);
    assert !Has(init, last.0) by {
      forall i | 0 <= i < |init| ensures init[i].0 != last.0 {
        assert (init + [last])[i] == init[i];
        assert (init + [last])[|init|] == last;
      }
    }
    assert (o + init) + [last] == o + (init + [last]);
  }

  lemma {:induction false} InitGet(init: JsObject, last: (string, Value), k: string)
    requires k != last.0
    ensures Get(init + [last], k) == Get(init, k)
  {
    AppendFind(init, last.0, last.1, k, 0);
  }

  /** Assignment, seen as a map update, with the order it leaves behind. */
  lemma PutMap(o: JsObject, k: string, v: Value)
    ensures ToMap(Put(o, k, v)) == ToMap(o)[k := v]
  {
    var r := ToMap(Put(o, k, v));
    var m := ToMap(o)[k := v];
    forall j ensures (j in r <==> j in m) && (j in m ==> r[j] == m[j]) {
    }
  }

  /** Assignment keeps the order of the existing properties. */
  lemma PutKeys(o: JsObject, k: string, v: Value)
    ensures |o| <= |Put(o, k, v)| && Keys(Put(o, k, v))[..|o|] == Keys(o)
    ensures !Has(o, k) ==> Keys(Put(o, k, v)) == Keys(o) + [k]
  {
    if !Has(o, k) {
      assert Keys(Put(o, k, v)) == Keys(o) + [k];
    }
  }

  /** `_.extend` keeps the properties of `o` first and in their order. */
  lemma {:induction false} AssignKeepsOrder(o: JsObject, src: JsObject)
    ensures |o| <= |Assign(o, src)| && Keys(Assign(o, src))[..|o|] == Keys(o)
    decreases |src|
  {
    if src != [] {
      var last := src[|src| - 1];
      var r0 := Assign(o, src[..|src| - 1]);
      AssignKeepsOrder(o, src[..|src| - 1]);
      if Has(r0, last.0) {
        assert Keys(Assign(o, src)) == Keys(r0);
      } else {
        assert Keys(Assign(o, src)) == Keys(r0) + [last.0];
      }
    }
  }

  /** Caller properties win over the ones already present. */
  lemma AssignOverrides(o: JsObject, src: JsObject)
    requires DistinctKeys(o) && DistinctKeys(src)
    ensures ToMap(Assign(o, src)) == ToMap(o) + ToMap(src)
  {
    var a := Assign(o, src);
    AssignProperties(o, src);
    var r, mo, ms := ToMap(a), ToMap(o), ToMap(src);
    forall k ensures k in r <==> k in mo || k in ms {
      assert k in r <==> Has(a, k);
    }
    forall k | k in r ensures r[k] == if k in ms then ms[k] else mo[k] {
      assert r[k] == Get(a, k);
    }
    MapUnion(r, mo, ms);
  }

  /** A map whose keys and values are those of `mo` overridden by `ms`. */
  lemma MapUnion(r: map<string, Value>, mo: map<string, Value>, ms: map<string, Value>)
    requires forall k :: k in r <==> k in mo || k in ms
    requires forall k :: k in r ==> r[k] == if k in ms then ms[k] else mo[k]
    ensures r == mo + ms
  {
  }

  /** The properties of two objects laid end to end. */
  lemma HasConcat(a: JsObject, b: JsObject)
    ensures forall k :: Has(a + b, k) <==> Has(a, k) || Has(b, k)
  {
    forall k | Has(a + b, k) ensures Has(a, k) || Has(b, k) {
      var i :| 0 <= i < |a + b| && (a + b)[i].0 == k;
      if i >= |a| {
        assert b[i - |a|].0 == k;
      }
    }
    forall k | Has(a, k) ensures Has(a + b, k) {
      var i :| 0 <= i < |a| && a[i].0 == k;
      assert (a + b)[i].0 == k;
    }
    forall k | Has(b, k) ensures Has(a + b, k) {
      var i :| 0 <= i < |b| && b[i].0 == k;
      assert (a + b)[|a| + i].0 == k;
    }
  }

  /** A property of a prefix has the same value in the whole object. */
  lemma GetPrefix(o: JsObject, n: nat, k: string)
    requires DistinctKeys(o) && n <= |o| && Has(o[..n], k)
    ensures Get(o, k) == Get(o[..n], k)
  {
    var i :| 0 <= i < n && o[..n][i].0 == k;
    GetAt(o, i);
    GetAt(o[..n], i);
  }

  /** Laying two objects with no shared property end to end keeps every value. */
  lemma GetConcat(a: JsObject, b: JsObject)
    requires DistinctKeys(a) && DistinctKeys(b)
    requires forall k :: Has(a, k) ==> !Has(b, k)
    ensures DistinctKeys(a + b)
    ensures forall k :: Has(a, k) ==> Get(a + b, k) == Get(a, k)
    ensures forall k :: Has(b, k) ==> Get(a + b, k) == Get(b, k)
  {
    var o := a + b;
    forall i, j | 0 <= i < j < |o| ensures o[i].0 != o[j].0 {
      if i < |a| && j >= |a| {
        assert Has(a, o[i].0);
        assert b[j - |a|] == o[j];
      }
    }
    forall k | Has(a, k) ensures Get(o, k) == Get(a, k) {
      var i :| 0 <= i < |a| && a[i].0 == k;
      GetAt(a, i);
      GetAt(o, i);
    }
    forall k | Has(b, k) ensures Get(o, k) == Get(b, k) {
      var i :| 0 <= i < |b| && b[i].0 == k;
      GetAt(b, i);
      GetAt(o, |a| + i);
    }
  }

  /** A reordering of an object's properties denotes the same map. */
  lemma {:induction false} PermutedObjectsAgree(p: JsObject, q: JsObject)
    requires DistinctKeys(p) && DistinctKeys(q)
    requires multiset(p) == multiset(q)
    ensures ToMap(p) == ToMap(q)
  {
    forall k | Has(p, k) ensures Has(q, k) && Get(q, k) == Get(p, k) {
      var i :| 0 <= i < |p| && p[i].0 == k;
      assert p[i] in multiset(q);
      assert p[i] in q;
      var j :| 0 <= j < |q| && q[j] == p[i];
      GetAt(p, i);
      GetAt(q, j);
    }
    forall k | Has(q, k) ensures Has(p, k) {
      var j :| 0 <= j < |q| && q[j].0 == k;
      assert q[j] in multiset(p);
      assert q[j] in p;
      var i :| 0 <= i < |p| && p[i] == q[j];
      assert p[i].0 == k;
    }
  }

  /** JavaScript truthiness (NaN is not modelled). */
  predicate Truthy(v: Value)
  {
    match v
    case Undefined => false
    case Bool(b) => b
    case Str(s) => s != ""
    case Num(n) => n != 0
    case Obj(_) => true
  }

  predicate IsDigit(c: char)
  {
    '0' <= c <= '9'
  }

  predicate AllDigits(s: string)
  {
    forall i :: 0 <= i < |s| ==> IsDigit(s[i])
  }

  /** The number a string of decimal digits denotes, read left to right. */
  function DecimalValue(s: string): nat
    requires AllDigits(s)
  {
    if s == [] then 0
    else DecimalValue(s[..|s| - 1]) * 10 + (s[|s| - 1] - '0') as int
  }

  /** The decimal digits of a natural number: they denote the number, and
      there is no leading zero. */
  function NatToDecimal(n: nat): (r: string)
    ensures |r| > 0
    ensures AllDigits(r) && DecimalValue(r) == n
    ensures r[0] == '0' <==> n == 0
    ensures |r| == 1 <==> n < 10
    decreases n
  {
    var d := [(n % 10) as char + '0' as char];
    if n < 10 then d
    else
      var init := NatToDecimal(n / 10);
      assert (init + d)[..|init|] == init;
      init + d
  }

  /** String coercion, as in `key + "=" + value`: a string is itself; a
      number is its decimal digits, after a minus sign when it is negative. */
  function ToJsString(v: Value): (r: string)
    ensures v.Str? ==> r == v.s
    ensures v.Num? ==> |r| > 0 && (r[0] == '-' <==> v.n < 0)
    ensures v.Num? && v.n >= 0 ==> AllDigits(r) && DecimalValue(r) == v.n
    ensures v.Num? && v.n < 0 ==> |r| > 1 && AllDigits(r[1..]) && DecimalValue(r[1..]) == -v.n
  {
    match v
    case Undefined => "undefined"
    case Bool(b) => if b then "true" else "false"
    case Str(s) => s
    case Num(n) => if n < 0 then "-" + NatToDecimal(-n) else NatToDecimal(n)
    case Obj(_) => "[object Object]"
  }

  /** Two numbers with the same string form are the same number. */
  lemma NumberStringsDistinct(a: int, b: int)
    requires ToJsString(Num(a)) == ToJsString(Num(b))
    ensures a == b
  {
    var s := ToJsString(Num(a));
    if a < 0 {
      assert DecimalValue(s[1..]) == -a == -b;
    } else {
      assert DecimalValue(s) == a == b;
    }
  }

  /** The characters that `.` in a JavaScript regular expression does not match. */
  predicate IsLineTerminator(c: char)
  {
    c == '\n' || c == '\r' || c == '\U{2028}' || c == '\U{2029}'
  }

  /** `pat` occurs in `s` starting at position `i`. */
  predicate OccursAt(s: string, pat: string, i: nat)
  {
    i + |pat| <= |s| && s[i..i + |pat|] == pat
  }

  predicate Occurs(s: string, pat: string)
  {
    exists i: nat | i + |pat| <= |s| :: OccursAt(s, pat, i)
  }

  /** `s.replace(/pat/g, rep)` for a regular expression that denotes the
      literal string `pat`: occurrences are replaced left to right, and the
      scan resumes after each replaced occurrence. */
  function ReplaceAll(s: string, pat: string, rep: string): string
    requires |pat| > 0
    decreases |s|
  {
    if |s| < |pat| then s
    else if s[..|pat|] == pat then rep + ReplaceAll(s[|pat|..], pat, rep)
    else [s[0]] + ReplaceAll(s[1..], pat, rep)
  }

  lemma TailAbsent(s: string, pat: string)
    requires s != [] && !Occurs(s, pat)
    ensures !Occurs(s[1..], pat)
  {
    forall i: nat | i + |pat| <= |s[1..]| ensures !OccursAt(s[1..], pat, i) {
      assert s[1..][i..i + |pat|] == s[i + 1..i + 1 + |pat|];
      assert !OccursAt(s, pat, i + 1);
    }
  }

  /** A string in which the pattern does not occur is left as it is. */
  lemma {:induction false} ReplaceAbsent(s: string, pat: string, rep: string)
    requires |pat| > 0 && !Occurs(s, pat)
    ensures ReplaceAll(s, pat, rep) == s
    decreases |s|
  {
    if |s| >= |pat| {
      assert !OccursAt(s, pat, 0);
      TailAbsent(s, pat);
      ReplaceAbsent(s[1..], pat, rep);
      assert [s[0]] + s[1..] == s;
    }
  }

  /** One step of a single-character replacement. */
  lemma ReplaceCharStep(s: string, c: char, rep: string)
    requires s != []
    ensures ReplaceAll(s, [c], rep) == (if s[0] == c then rep else [s[0]]) + ReplaceAll(s[1..], [c], rep)
  {
    assert s[..|[c]|] == [s[0]];
  }

  /** Replacing a single character commutes with concatenation. */
  lemma {:induction false} ReplaceCharConcat(a: string, b: string, c: char, rep: string)
    ensures ReplaceAll(a + b, [c], rep) == ReplaceAll(a, [c], rep) + ReplaceAll(b, [c], rep)
    decreases |a|
  {
    if a != [] {
      assert (a + b)[1..] == a[1..] + b;
      assert (a + b)[0] == a[0];
      ReplaceCharStep(a + b, c, rep);
      ReplaceCharStep(a, c, rep);
      ReplaceCharConcat(a[1..], b, c, rep);
    } else {
      assert a + b == b;
    }
  }

  /** A string without the character is left as it is. */
  lemma {:induction false} ReplaceCharAbsent(s: string, c: char, rep: string)
    requires c !in s
    ensures ReplaceAll(s, [c], rep) == s
    decreases |s|
  {
    if s != [] {
      ReplaceCharStep(s, c, rep);
      ReplaceCharAbsent(s[1..], c, rep);
    }
  }

  /** After the replacement the character is gone, if the replacement does
      not reintroduce it. */
  lemma {:induction false} ReplaceCharRemoves(s: string, c: char, rep: string)
    requires c !in rep
    ensures c !in ReplaceAll(s, [c], rep)
    decreases |s|
  {
    if s != [] {
      ReplaceCharStep(s, c, rep);
      ReplaceCharRemoves(s[1..], c, rep);
    }
  }

  /** A character other than `c` and absent from the replacement survives
      exactly as often as it occurs. */
  lemma {:induction false} ReplaceCharKeepsOthers(s: string, c: char, rep: string, x: char)
    requires x != c && x !in rep
    ensures multiset(ReplaceAll(s, [c], rep))[x] == multiset(s)[x]
    decreases |s|
  {
    if s != [] {
      assert s == [s[0]] + s[1..];
      ReplaceCharStep(s, c, rep);
      ReplaceCharKeepsOthers(s[1..], c, rep, x);
    }
  }

  /** Strict order of strings by character, shorter prefix first: the order
      `Array.prototype.sort` uses when no comparator is given (which compares
      UTF-16 code units; the two agree on strings without characters above
      U+FFFF). */
  predicate Below(a: string, b: string)
    decreases |a|
  {
    if a == [] then b != []
    else b != [] && (a[0] < b[0] || (a[0] == b[0] && Below(a[1..], b[1..])))
  }

  lemma {:induction false} BelowIrreflexive(a: string)
    ensures !Below(a, a)
    decreases |a|
  {
    if a != [] {
      BelowIrreflexive(a[1..]);
    }
  }

  lemma {:induction false} BelowTransitive(a: string, b: string, c: string)
    requires Below(a, b) && Below(b, c)
    ensures Below(a, c)
    decreases |a|
  {
    if a != [] && a[0] == b[0] && b[0] == c[0] {
      BelowTransitive(a[1..], b[1..], c[1..]);
    }
  }

  lemma {:induction false} BelowTotal(a: string, b: string)
    requires a != b
    ensures Below(a, b) || Below(b, a)
    decreases |a|
  {
    if a != [] && b != [] && a[0] == b[0] {
      assert a == [a[0]] + a[1..] && b == [b[0]] + b[1..];
      BelowTotal(a[1..], b[1..]);
    }
  }

  /** `join(sep)`. */
  function Join(parts: seq<string>, sep: string): string
    decreases |parts|
  {
    if parts == [] then ""
    else if |parts| == 1 then parts[0]
    else parts[0] + sep + Join(parts[1..], sep)
  }
}
