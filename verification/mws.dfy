/** The request builder of lib/mws.js: the string to sign of AWS Signature
    Version 2 (HmacSHA256), the request assembled around it, and the check
    of the configuration file. The HMAC, the query-string encoder, the clock
    and the HTTPS send are not modelled; the first two are parameters. */
module Mws {
  import opened JsValues

  const Host := "mws.amazonservices.jp"

  /** The path prefix and API version of one section of the service. */
  datatype Endpoint = Endpoint(prefix: string, version: string)

  /** The static endpoint table. The `Orders` entry holds the regular
      expression `/Orders/`, whose string form is that same text. */
  function EndpointFor(name: string): (r: Option<Endpoint>)
  {
    if name == "Products" then Some(Endpoint("/Products/", "2011-10-01"))
    else if name == "Sellers" then Some(Endpoint("/Sellers/", "2011-07-01"))
    else if name == "Orders" then Some(Endpoint("/Orders/", "2013-09-01"))
    else if name == "Feeds" then Some(Endpoint("/", "2009-01-01"))
    else if name == "Reports" then Some(Endpoint("/", "2009-01-01"))
    else if name == "FullFillment" then Some(Endpoint("/", "2010-10-01"))
    else if name == "Finances" then Some(Endpoint("/Finances/", "2015-05-01"))
    else None
  }

  /** The request path, signed and requested alike: prefix and version, except
      that `FullFillment` goes to `/FulfillmentInventory/` whatever its prefix. */
  function RequestPath(name: string, e: Endpoint): string
  {
    if name == "FullFillment" then "/FulfillmentInventory/" + e.version
    else e.prefix + e.version
  }

  /** The seven known sections. */
  lemma KnownSections(name: string)
    ensures EndpointFor(name).Some? <==>
      name in ["Products", "Sellers", "Orders", "Feeds", "Reports", "FullFillment", "Finances"]
  {
  }

  /** The path of each known section. */
  lemma RequestPaths()
    ensures RequestPath("Products", EndpointFor("Products").value) == "/Products/" + "2011-10-01"
    ensures RequestPath("Sellers", EndpointFor("Sellers").value) == "/Sellers/" + "2011-07-01"
    ensures RequestPath("Orders", EndpointFor("Orders").value) == "/Orders/" + "2013-09-01"
    ensures RequestPath("Feeds", EndpointFor("Feeds").value) == "/" + "2009-01-01"
    ensures RequestPath("Reports", EndpointFor("Reports").value) == "/" + "2009-01-01"
    ensures RequestPath("FullFillment", EndpointFor("FullFillment").value) == "/FulfillmentInventory/" + "2010-10-01"
    ensures RequestPath("Finances", EndpointFor("Finances").value) == "/Finances/" + "2015-05-01"
  {
  }

  // ---------------------------------------------------------------------
  // Escaping

  /** `v.replace(/:/g, "%3A")`, applied to the Timestamp and to Date values. */
  function EscapeColons(s: string): string
  {
    ReplaceAll(s, [':'], "%3A")
  }

  lemma EscapeColonsSpec(s: string)
    ensures ':' !in EscapeColons(s)
    ensures ':' !in s ==> EscapeColons(s) == s
    ensures forall x :: x != ':' && x != '%' && x != '3' && x != 'A' ==>
      multiset(EscapeColons(s))[x] == multiset(s)[x]
  {
    ReplaceCharRemoves(s, ':', "%3A");
    if ':' !in s {
      ReplaceCharAbsent(s, ':', "%3A");
    }
    forall x | x != ':' && x != '%' && x != '3' && x != 'A'
      ensures multiset(EscapeColons(s))[x] == multiset(s)[x]
    {
      ReplaceCharKeepsOthers(s, ':', "%3A", x);
    }
  }

  /** The final escapes of the string to sign, applied one after the other
      in this order. */
  const SigningEscapes: seq<(char, string)> :=
    [('\'', "%27"), ('*', "%2A"), ('(', "%28"), (')', "%29"), (' ', "%20")]

  /** One global replacement per table row, in table order. */
  function ReplaceEach(s: string, table: seq<(char, string)>): string
    decreases |table|
  {
    if table == [] then s
    else ReplaceEach(ReplaceAll(s, [table[0].0], table[0].1), table[1..])
  }

  function EscapeForSigning(s: string): string
  {
    ReplaceEach(s, SigningEscapes)
  }

  /** The replacement a table gives for one character, if any. */
  function Lookup(table: seq<(char, string)>, c: char): Option<string>
    decreases |table|
  {
    if table == [] then None
    else if table[0].0 == c then Some(table[0].1)
    else Lookup(table[1..], c)
  }

  /** Reference definition: every character replaced by its table entry,
      every other character kept, in one pass. */
  function EscapeEach(s: string, table: seq<(char, string)>): string
    decreases |s|
  {
    if s == [] then []
    else
      (match Lookup(table, s[0]) case Some(rep) => rep case None => [s[0]])
      + EscapeEach(s[1..], table)
  }

  predicate Escapable(c: char, table: seq<(char, string)>)
  {
    exists i | 0 <= i < |table| :: table[i].0 == c
  }

  /** No replacement reintroduces a character that a row replaces. */
  predicate Closed(table: seq<(char, string)>)
  {
    forall i, j :: 0 <= i < |table| && 0 <= j < |table| ==> table[i].0 !in table[j].1
  }

  lemma {:induction false} ReplaceEachConcat(a: string, b: string, table: seq<(char, string)>)
    ensures ReplaceEach(a + b, table) == ReplaceEach(a, table) + ReplaceEach(b, table)
    decreases |table|
  {
    if table != [] {
      ReplaceCharConcat(a, b, table[0].0, table[0].1);
      ReplaceEachConcat(ReplaceAll(a, [table[0].0], table[0].1), ReplaceAll(b, [table[0].0], table[0].1), table[1..]);
    }
  }

  lemma {:induction false} ReplaceEachAbsent(s: string, table: seq<(char, string)>)
    requires forall c :: c in s ==> !Escapable(c, table)
    ensures ReplaceEach(s, table) == s
    decreases |table|
  {
    if table != [] {
      assert table[0].0 !in s;
      ReplaceCharAbsent(s, table[0].0, table[0].1);
      ReplaceEachAbsent(s, table[1..]);
    }
  }

  lemma {:induction false} ReplaceEachChar(c: char, table: seq<(char, string)>)
    requires Closed(table)
    ensures ReplaceEach([c], table) == match Lookup(table, c) case Some(rep) => rep case None => [c]
    decreases |table|
  {
    if table != [] {
      var rest := table[1..];
      assert Closed(rest) by {
        forall i, j | 0 <= i < |rest| && 0 <= j < |rest| ensures rest[i].0 !in rest[j].1 {
          assert rest[i] == table[i + 1] && rest[j] == table[j + 1];
        }
      }
      ReplaceCharStep([c], table[0].0, table[0].1);
      assert ReplaceAll([c][1..], [table[0].0], table[0].1) == [];
      if table[0].0 == c {
        ReplaceEachAbsent(table[0].1, rest);
        assert ReplaceAll([c], [table[0].0], table[0].1) == table[0].1 + [];
        assert table[0].1 + [] == table[0].1;
      } else {
        assert ReplaceAll([c], [table[0].0], table[0].1) == [c];
        assert ReplaceEach([c], table) == ReplaceEach([c], rest);
        ReplaceEachChar(c, rest);
      }
    }
  }

  /** Applying the rows one after the other is the same as the one-pass
      substitution, because no replacement contains a character that a row
      replaces. */
  lemma {:induction false} ReplaceEachIsOnePass(s: string, table: seq<(char, string)>)
    requires Closed(table)
    ensures ReplaceEach(s, table) == EscapeEach(s, table)
    decreases |s|
  {
    if s == [] {
      ReplaceEachAbsent(s, table);
    } else {
      assert s == [s[0]] + s[1..];
      ReplaceEachConcat([s[0]], s[1..], table);
      ReplaceEachChar(s[0], table);
      ReplaceEachIsOnePass(s[1..], table);
    }
  }

  lemma SigningEscapesClosed()
    ensures Closed(SigningEscapes)
  {
  }

  /** The escaping of the string to sign is the one-pass substitution
      ' -> %27, * -> %2A, ( -> %28, ) -> %29, space -> %20. */
  lemma EscapeForSigningIsTable(s: string)
    ensures EscapeForSigning(s) == EscapeEach(s, SigningEscapes)
  {
    SigningEscapesClosed();
    ReplaceEachIsOnePass(s, SigningEscapes);
  }

  /** It works character by character and in order. */
  lemma EscapeForSigningConcat(a: string, b: string)
    ensures EscapeForSigning(a + b) == EscapeForSigning(a) + EscapeForSigning(b)
  {
    ReplaceEachConcat(a, b, SigningEscapes);
  }

  /** A string with none of the five characters is signed as it is. */
  lemma EscapeForSigningKeepsPlain(s: string)
    requires forall c :: c in s ==> c !in "'*() "
    ensures EscapeForSigning(s) == s
  {
    forall c | c in s ensures !Escapable(c, SigningEscapes) {
    }
    ReplaceEachAbsent(s, SigningEscapes);
  }

  lemma {:induction false} EscapeEachLeavesNone(s: string)
    ensures forall c :: c in EscapeEach(s, SigningEscapes) ==> c !in "'*() "
    decreases |s|
  {
    if s != [] {
      EscapeEachLeavesNone(s[1..]);
    }
  }

  /** None of the five characters is left, so escaping twice is escaping once. */
  lemma EscapeForSigningIdempotent(s: string)
    ensures forall c :: c in EscapeForSigning(s) ==> c !in "'*() "
    ensures EscapeForSigning(EscapeForSigning(s)) == EscapeForSigning(s)
  {
    EscapeForSigningIsTable(s);
    EscapeEachLeavesNone(s);
    EscapeForSigningKeepsPlain(EscapeForSigning(s));
  }

  // ---------------------------------------------------------------------
  // Timestamp

  /** `/\..+/` matches at `i`: a dot followed by at least one character. */
  predicate DotRunAt(s: string, i: nat)
  {
    i + 1 < |s| && s[i] == '.' && !IsLineTerminator(s[i + 1])
  }

  /** The leftmost match of `/\..+/` at or after `from`. */
  function DotRunFrom(s: string, from: nat): (r: Option<nat>)
    requires from <= |s|
    ensures r.Some? ==> from <= r.value && DotRunAt(s, r.value)
    ensures r.Some? ==> forall i :: from <= i < r.value ==> !DotRunAt(s, i)
    ensures r.None? ==> forall i :: from <= i < |s| ==> !DotRunAt(s, i)
    decreases |s| - from
  {
    if from == |s| then None
    else if DotRunAt(s, from) then Some(from)
    else DotRunFrom(s, from + 1)
  }

  /** Where the greedy `.+` starting at `j` stops: the first line terminator
      at or after `j`, or the end. */
  function RunEnd(s: string, j: nat): (r: nat)
    requires j <= |s|
    ensures j <= r <= |s|
    ensures forall i :: j <= i < r ==> !IsLineTerminator(s[i])
    ensures r < |s| ==> IsLineTerminator(s[r])
    decreases |s| - j
  {
    if j == |s| || IsLineTerminator(s[j]) then j else RunEnd(s, j + 1)
  }

  /** `now.replace(/\..+/, '') + 'Z'`: the milliseconds and zone of
      `toISOString()` cut off and `Z` put back. */
  function TrimToSeconds(now: string): string
  {
    var cut := match DotRunFrom(now, 0)
      case None => now
      case Some(i) => now[..i] + now[RunEnd(now, i + 1)..];
    cut + "Z"
  }

  /** On a single line, everything from the first dot on is replaced by `Z`,
      provided something follows the dot. */
  lemma TrimCutsAtFirstDot(s: string, i: nat)
    requires forall c :: c in s ==> !IsLineTerminator(c)
    requires i + 1 < |s| && s[i] == '.' && '.' !in s[..i]
    ensures TrimToSeconds(s) == s[..i] + "Z"
  {
    assert DotRunAt(s, i);
    assert forall j :: 0 <= j < i ==> s[..i][j] == s[j];
    assert DotRunFrom(s, 0) == Some(i);
    assert s[RunEnd(s, i + 1)..] == [];
  }

  /** Without a dot the string only gains the `Z`. */
  lemma TrimWithoutDot(s: string)
    requires '.' !in s
    ensures TrimToSeconds(s) == s + "Z"
  {
  }

  /** `YYYY-MM-DDTHH:MM:SS` at the start of `s`. */
  predicate StartsWithIsoSeconds(s: string)
  {
    && |s| >= 19
    && (forall i :: 0 <= i < 19 && i !in {4, 7, 10, 13, 16} ==> IsDigit(s[i]))
    && s[4] == '-' && s[7] == '-' && s[10] == 'T' && s[13] == ':' && s[16] == ':'
  }

  /** What `Date.prototype.toISOString` returns for years 0 to 9999:
      `YYYY-MM-DDTHH:MM:SS.sssZ`. */
  predicate IsIsoMillis(s: string)
  {
    && |s| == 24 && StartsWithIsoSeconds(s)
    && s[19] == '.' && IsDigit(s[20]) && IsDigit(s[21]) && IsDigit(s[22]) && s[23] == 'Z'
  }

  /** `YYYY-MM-DDTHH:MM:SS.sssZ` becomes `YYYY-MM-DDTHH:MM:SSZ`. */
  lemma TrimIsoMillis(s: string)
    requires IsIsoMillis(s)
    ensures TrimToSeconds(s) == s[..19] + "Z"
    ensures |TrimToSeconds(s)| == 20 && StartsWithIsoSeconds(TrimToSeconds(s))
  {
    forall c | c in s ensures !IsLineTerminator(c) {
      var i :| 0 <= i < |s| && s[i] == c;
      if i !in {4, 7, 10, 13, 16, 19, 23} { assert IsDigit(s[i]); }
    }
    forall c | c in s[..19] ensures c != '.' {
      var i :| 0 <= i < 19 && s[..19][i] == c;
      assert s[i] == c;
      if i !in {4, 7, 10, 13, 16} { assert IsDigit(s[i]); }
    }
    TrimCutsAtFirstDot(s, 19);
    var t := TrimToSeconds(s);
    assert forall i :: 0 <= i < 19 ==> t[i] == s[i];
  }

  // ---------------------------------------------------------------------
  // Sorting the keys

  predicate Ascending(s: seq<string>)
  {
    forall i, j :: 0 <= i < j < |s| ==> !Below(s[j], s[i])
  }

  predicate StrictlyAscending(s: seq<string>)
  {
    forall i, j :: 0 <= i < j < |s| ==> Below(s[i], s[j])
  }

  /** `keys.sort()`, in place: an insertion sort by adjacent swaps. */
  method SortKeys(a: array<string>)
    modifies a
    ensures Ascending(a[..])
    ensures multiset(a[..]) == multiset(old(a[..]))
  {
    var i := 0;
    while i < a.Length
      invariant 0 <= i <= a.Length
      invariant Ascending(a[..i])
      invariant multiset(a[..]) == multiset(old(a[..]))
    {
      SinkLast(a, i);
      i := i + 1;
    }
    assert a[..a.Length] == a[..];
  }

  /** Moves `a[i]` down past every greater key before it, so that the first
      `i + 1` keys are in order. */
  method SinkLast(a: array<string>, i: nat)
    requires i < a.Length && Ascending(a[..i])
    modifies a
    ensures Ascending(a[..i + 1])
    ensures multiset(a[..]) == multiset(old(a[..]))
  {
    var j := i;
    while 0 < j && Below(a[j], a[j - 1])
      invariant 0 <= j <= i
      invariant forall p, q :: 0 <= p < q <= i && p != j && q != j ==> !Below(a[q], a[p])
      invariant forall q :: j < q <= i ==> !Below(a[q], a[j])
      invariant multiset(a[..]) == multiset(old(a[..]))
    {
      BelowAsymmetric(a[j], a[j - 1]);
      a[j - 1], a[j] := a[j], a[j - 1];
      j := j - 1;
    }
    forall p | 0 <= p < j ensures !Below(a[j], a[p]) {
      if Below(a[j], a[p]) {
        NotBelowBetween(a[p], a[j - 1], a[j]);
      }
    }
  }

  lemma BelowAsymmetric(a: string, b: string)
    requires Below(a, b)
    ensures !Below(b, a)
  {
    if Below(b, a) {
      BelowTransitive(a, b, a);
      BelowIrreflexive(a);
    }
  }

  /** `a <= b <= c` in the order of Below implies `a <= c`. */
  lemma NotBelowBetween(a: string, b: string, c: string)
    requires !Below(b, a) && !Below(c, b)
    ensures !Below(c, a)
  {
    if Below(c, a) {
      if a == b {
      } else if b == c {
      } else {
        BelowTotal(a, b);
        BelowTotal(b, c);
        BelowTransitive(a, b, c);
        BelowIrreflexive(c);
        BelowTransitive(c, a, c);
      }
    }
  }

  // ---------------------------------------------------------------------
  // The string to sign

  datatype SignError =
    | NotAString(key: string)      // `.replace` on a value that is not a string
    | UnknownEndpoint(name: string) // `endpoint[ep]` is undefined
    | BadKey                        // `createHmac` refuses a key that is not a string

  /** Every non-empty set of keys has a least key. */
  lemma LeastExists(ks: set<string>)
    requires ks != {}
    ensures exists k :: k in ks && forall j :: j in ks ==> !Below(j, k)
    decreases |ks|
  {
    var x :| x in ks;
    var rest := ks - {x};
    if rest == {} {
      assert ks == {x};
      BelowIrreflexive(x);
      assert x in ks && forall j :: j in ks ==> !Below(j, x);
    } else {
      LeastExists(rest);
      var y :| y in rest && forall j :: j in rest ==> !Below(j, y);
      var k := LeastOfTwo(ks, x, y);
    }
  }

  /** The least of `x` and the least key `y` of the other keys is the least
      key of all. */
  lemma LeastOfTwo(ks: set<string>, x: string, y: string) returns (k: string)
    requires x in ks && y in ks
    requires forall j :: j in ks && j != x ==> !Below(j, y)
    ensures k in ks && forall j :: j in ks ==> !Below(j, k)
  {
    if Below(x, y) {
      forall j | j in ks ensures !Below(j, x) {
        if j == x {
          BelowIrreflexive(x);
        } else if Below(j, x) {
          BelowTransitive(j, x, y);
        }
      }
      k := x;
    } else {
      k := y;
    }
  }

  /** The keys of a map in ascending order, each once. */
  ghost function SortedKeys(ks: set<string>): (r: seq<string>)
    ensures StrictlyAscending(r)
    ensures forall k :: k in r <==> k in ks
    ensures |r| == |ks|
    decreases |ks|
  {
    if ks == {} then []
    else
      LeastExists(ks);
      var k :| k in ks && forall j :: j in ks ==> !Below(j, k);
      LeastBelowOthers(ks, k);
      [k] + SortedKeys(ks - {k})
  }

  lemma LeastBelowOthers(ks: set<string>, k: string)
    requires k in ks && forall j :: j in ks ==> !Below(j, k)
    ensures forall j :: j in ks - {k} ==> Below(k, j)
  {
    forall j | j in ks - {k} ensures Below(k, j) {
      BelowTotal(k, j);
    }
  }

  /** In a strictly ascending sequence the tail holds exactly the elements
      other than the head. */
  lemma AscendingTail(a: seq<string>)
    requires StrictlyAscending(a) && a != []
    ensures forall k :: k in a[1..] <==> k in a && k != a[0]
    ensures forall k :: k in a[1..] ==> Below(a[0], k)
  {
    forall k | k in a[1..] ensures k != a[0] && Below(a[0], k) {
      var x :| 0 <= x < |a[1..]| && a[1..][x] == k;
      assert a[x + 1] == k;
      BelowIrreflexive(a[0]);
    }
    forall k | k in a && k != a[0] ensures k in a[1..] {
      var x :| 0 <= x < |a| && a[x] == k;
      assert a[1..][x - 1] == k;
    }
  }

  lemma NonEmptyHasMember(b: seq<string>)
    requires b != []
    ensures exists k :: k in b
  {
    assert b[0] in b;
  }

  /** A set of keys has only one strictly ascending arrangement. */
  lemma {:induction false} AscendingUnique(a: seq<string>, b: seq<string>)
    requires StrictlyAscending(a) && StrictlyAscending(b)
    requires forall k :: k in a <==> k in b
    ensures a == b
    decreases |a|
  {
    if a == [] {
      if b != [] {
        NonEmptyHasMember(b);
        assert false;
      }
    } else {
      assert a[0] in b;
      assert b[0] in a;
      AscendingTail(a);
      AscendingTail(b);
      if a[0] != b[0] {
        assert Below(a[0], b[0]) && Below(b[0], a[0]);
        BelowAsymmetric(a[0], b[0]);
      }
      AscendingUnique(a[1..], b[1..]);
    }
  }

  predicate DistinctSeq(s: seq<string>)
  {
    forall i, j :: 0 <= i < j < |s| ==> s[i] != s[j]
  }

  lemma {:induction false} DistinctCount(s: seq<string>, x: string)
    requires DistinctSeq(s)
    ensures multiset(s)[x] <= 1
    decreases |s|
  {
    if s != [] {
      var init := s[..|s| - 1];
      assert s == init + [s[|s| - 1]];
      DistinctCount(init, x);
      if s[|s| - 1] == x {
        assert x !in init;
      }
    }
  }

  /** Sorting keeps distinct keys distinct. */
  lemma DistinctPermutation(s: seq<string>, t: seq<string>)
    requires DistinctSeq(s) && multiset(s) == multiset(t)
    ensures DistinctSeq(t)
  {
    forall i, j | 0 <= i < j < |t| ensures t[i] != t[j] {
      if t[i] == t[j] {
        assert t == t[..j] + t[j..];
        assert t[i] in t[..j];
        assert t[j] in t[j..];
        assert multiset(t)[t[i]] >= 2;
        DistinctCount(s, t[i]);
      }
    }
  }

  /** What `keys.sort()` leaves in the array is the map's sorted key list. */
  lemma SortedIsSortedKeys(params: JsObject, s: seq<string>)
    requires DistinctKeys(params)
    requires multiset(s) == multiset(Keys(params)) && Ascending(s)
    ensures s == SortedKeys(ToMap(params).Keys)
  {
    assert DistinctSeq(Keys(params));
    DistinctPermutation(Keys(params), s);
    forall i, j | 0 <= i < j < |s| ensures Below(s[i], s[j]) {
      BelowTotal(s[i], s[j]);
    }
    var ks := SortedKeys(ToMap(params).Keys);
    forall k ensures k in s <==> k in ks {
      calc {
        k in s;
        k in multiset(s);
        k in multiset(Keys(params));
        k in Keys(params);
        { if k in Keys(params) { var i :| 0 <= i < |params| && Keys(params)[i] == k; assert params[i].0 == k; } }
        Has(params, k);
      }
    }
    AscendingUnique(s, ks);
  }

  /** The properties named by `ks`, in that order, with their values in `m`. */
  function Entries(ks: seq<string>, m: map<string, Value>): JsObject
    requires forall k :: k in ks ==> k in m
  {
    seq(|ks|, i requires 0 <= i < |ks| => (ks[i], m[ks[i]]))
  }

  /** The `sorted` object of the source: the map's properties in key order. */
  ghost function SortedEntries(m: map<string, Value>): (r: JsObject)
    ensures DistinctKeys(r) && |r| == |m.Keys|
    ensures forall i :: 0 <= i < |r| ==> r[i].0 in m && r[i].1 == m[r[i].0]
    ensures forall k :: k in m ==> Has(r, k)
  {
    var ks := SortedKeys(m.Keys);
    EntriesDistinct(ks, m);
    var r := Entries(ks, m);
    assert forall k :: k in m ==> Has(r, k) by {
      forall k | k in m ensures Has(r, k) {
        var i :| 0 <= i < |ks| && ks[i] == k;
        assert r[i].0 == k;
      }
    }
    r
  }

  /** A key the source rewrites because its name contains "Date". */
  predicate IsDateKey(key: string)
  {
    Occurs(key, "Date")
  }

  /** One `key=value` pair of the parameter string; a Date value must be a
      string, since its colons are escaped with `.replace`. */
  function RenderPair(key: string, v: Value): Result<string, SignError>
  {
    if IsDateKey(key) then
      if v.Str? then Success(key + "=" + EscapeColons(v.s)) else Failure(NotAString(key))
    else Success(key + "=" + ToJsString(v))
  }

  /** The pairs of an object in its order; the first failing pair fails all. */
  function RenderPairs(o: JsObject): Result<seq<string>, SignError>
    decreases |o|
  {
    if o == [] then Success([])
    else
      match RenderPairs(o[..|o| - 1])
      case Failure(e) => Failure(e)
      case Success(ps) =>
        match RenderPair(o[|o| - 1].0, o[|o| - 1].1)
        case Failure(e) => Failure(e)
        case Success(p) => Success(ps + [p])
  }

  /** The parameter pairs signed for the merged map `m`: sorted by key, the
      Timestamp with its colons escaped. */
  ghost function SignedPairs(m: map<string, Value>): Result<seq<string>, SignError>
  {
    if "Timestamp" !in m || !m["Timestamp"].Str? then Failure(NotAString("Timestamp"))
    else RenderPairs(SortedEntries(TimestampEscaped(m)))
  }

  /** The string to sign for the merged map `m` and the endpoint named `ep`:
      four lines, then the final escapes. */
  ghost function CanonicalString(m: map<string, Value>, ep: string): Result<string, SignError>
  {
    match SignedPairs(m)
    case Failure(e) => Failure(e)
    case Success(ps) =>
      match EndpointFor(ep)
      case None => Failure(UnknownEndpoint(ep))
      case Some(e) => Success(EscapeForSigning(Join(["POST", Host, RequestPath(ep, e), Join(ps, "&")], "\n")))
  }

  /** The first half of `generateSignature`: everything before the HMAC. */
  method StringToSign(params: JsObject, ep: string) returns (r: Result<string, SignError>)
    requires DistinctKeys(params)
    ensures r == CanonicalString(ToMap(params), ep)
  {
    var a := CollectKeys(params);
    SortKeys(a);
    SortedIsSortedKeys(params, a[..]);
    var sorted := CopyInOrder(params, a);

    var ts := Get(params, "Timestamp");
    if !ts.Str? {
      assert !("Timestamp" in ToMap(params) && ToMap(params)["Timestamp"].Str?);
      return Failure(NotAString("Timestamp"));
    }
    assert "Timestamp" in ToMap(params) by {
      if !Has(params, "Timestamp") { GetMissing(params, "Timestamp"); }
    }
    ghost var m := ToMap(params);
    assert m["Timestamp"] == ts;
    PutTimestampSpec(m, Str(EscapeColons(ts.s)));
    sorted := Put(sorted, "Timestamp", Str(EscapeColons(ts.s)));
    assert SignedPairs(m) == RenderPairs(sorted);

    var joined := JoinedParameters(sorted);
    if joined.Failure? {
      return Failure(joined.error);
    }
    var e := EndpointFor(ep);
    if e.None? {
      return Failure(UnknownEndpoint(ep));
    }
    var strParams := Join(joined.value, "&");
    var queryRequest := Join(["POST", Host, RequestPath(ep, e.value), strParams], "\n");
    r := Success(EscapeForSigning(queryRequest));
  }

  /** `for (var key in params) keys.push(key)`, into a fresh array. */
  method CollectKeys(params: JsObject) returns (a: array<string>)
    ensures fresh(a) && a[..] == Keys(params)
  {
    var keys: seq<string> := [];
    for n := 0 to |params|
      invariant keys == Keys(params)[..n]
    {
      keys := keys + [params[n].0];
    }
    a := new string[|keys|](i requires 0 <= i < |keys| => keys[i]);
    assert a[..] == keys;
  }

  /** `sorted[keys[i]] = params[keys[i]]` for the sorted key array. */
  method CopyInOrder(params: JsObject, a: array<string>) returns (sorted: JsObject)
    requires DistinctKeys(params)
    requires a[..] == SortedKeys(ToMap(params).Keys)
    ensures sorted == SortedEntries(ToMap(params))
  {
    ghost var m := ToMap(params);
    ghost var order := a[..];
    sorted := [];
    for n := 0 to a.Length
      invariant sorted == Entries(order[..n], m)
    {
      EntriesStep(order, n, m);
      sorted := Put(sorted, a[n], Get(params, a[n]));
    }
    assert order[..a.Length] == order;
  }

  /** One more key in order appends one more property. */
  lemma EntriesStep(order: seq<string>, n: nat, m: map<string, Value>)
    requires StrictlyAscending(order) && n < |order| && forall k :: k in order ==> k in m
    ensures Put(Entries(order[..n], m), order[n], m[order[n]]) == Entries(order[..n + 1], m)
  {
    var sorted := Entries(order[..n], m);
    assert !Has(sorted, order[n]) by {
      if Has(sorted, order[n]) {
        var x :| 0 <= x < |sorted| && sorted[x].0 == order[n];
        assert Below(order[x], order[n]);
        BelowIrreflexive(order[n]);
      }
    }
    assert Entries(order[..n + 1], m) == sorted + [(order[n], m[order[n]])];
  }

  /** A failing pair fails the whole rendering, whatever follows it. */
  lemma RenderPairsFailAt(o: JsObject, n: nat, k: nat)
    requires n < k <= |o|
    requires RenderPairs(o[..n]).Success? && RenderPair(o[n].0, o[n].1).Failure?
    ensures RenderPairs(o[..k]) == Failure(RenderPair(o[n].0, o[n].1).error)
  {
    var p := o[..k];
    RenderPairsCollect(p);
    RenderPairsCollect(o[..n]);
    assert Rendered(p)[..n] == Rendered(o[..n]);
    assert Rendered(p)[n] == RenderPair(o[n].0, o[n].1);
    CollectFailAt(Rendered(p), n);
  }

  /** The first failure among the results is the failure of the whole run. */
  lemma {:induction false} CollectFailAt(rs: seq<Result<string, SignError>>, n: nat)
    requires n < |rs| && Collect(rs[..n]).Success? && rs[n].Failure?
    ensures Collect(rs) == Failure(rs[n].error)
    decreases |rs|
  {
    var init := rs[..|rs| - 1];
    if |rs| == n + 1 {
      assert init == rs[..n];
    } else {
      assert init[..n] == rs[..n];
      CollectFailAt(init, n);
    }
  }

  /** The `for (var key in sorted)` loop: Date values get their colons
      escaped in place, and every property becomes one `key=value` pair. */
  method JoinedParameters(sorted: JsObject) returns (r: Result<seq<string>, SignError>)
    requires DistinctKeys(sorted)
    ensures r == RenderPairs(sorted)
  {
    var cur := sorted;
    var joined: seq<string> := [];
    for n := 0 to |sorted|
      invariant |cur| == |sorted| && DistinctKeys(cur)
      invariant forall x :: 0 <= x < |sorted| ==> cur[x].0 == sorted[x].0
      invariant forall x :: n <= x < |sorted| ==> cur[x] == sorted[x]
      invariant RenderPairs(sorted[..n]) == Success(joined)
    {
      assert sorted[..n + 1] == sorted[..n] + [sorted[n]];
      var key := cur[n].0;
      GetAt(cur, n);
      if IsDateKey(key) {
        var v := Get(cur, key);
        if !v.Str? {
          RenderPairsFailAt(sorted, n, |sorted|);
          assert sorted[..|sorted|] == sorted;
          return Failure(NotAString(key));
        }
        PutAt(cur, n, Str(EscapeColons(v.s)));
        cur := Put(cur, key, Str(EscapeColons(v.s)));
        GetAt(cur, n);
      }
      joined := joined + [key + "=" + ToJsString(Get(cur, key))];
    }
    assert sorted[..|sorted|] == sorted;
    r := Success(joined);
  }

  /** The entries of a strictly ascending key list have distinct keys. */
  lemma EntriesDistinct(order: seq<string>, m: map<string, Value>)
    requires StrictlyAscending(order) && forall k :: k in order ==> k in m
    ensures DistinctKeys(Entries(order, m))
  {
    forall i, j | 0 <= i < j < |order| ensures order[i] != order[j] {
      if order[i] == order[j] {
        BelowIrreflexive(order[i]);
      }
    }
  }

  /** Overwriting the Timestamp property of the sorted object gives the
      sorted object of the updated map. */
  lemma PutTimestampSpec(m: map<string, Value>, v: Value)
    requires "Timestamp" in m
    ensures Put(SortedEntries(m), "Timestamp", v) == SortedEntries(m["Timestamp" := v])
  {
    var ks := SortedKeys(m.Keys);
    var m2 := m["Timestamp" := v];
    assert m2.Keys == m.Keys;
    var sorted := Entries(ks, m);
    assert SortedEntries(m) == sorted;
    assert SortedEntries(m2) == Entries(ks, m2);
    var i :| 0 <= i < |ks| && ks[i] == "Timestamp";
    PutAt(sorted, i, v);
    UpdateEntries(ks, m, i, v);
  }

  lemma UpdateEntries(order: seq<string>, m: map<string, Value>, i: nat, v: Value)
    requires StrictlyAscending(order) && forall k :: k in order ==> k in m
    requires i < |order|
    ensures Entries(order, m)[i := (order[i], v)] == Entries(order, m[order[i] := v])
  {
    var lhs := Entries(order, m)[i := (order[i], v)];
    var rhs := Entries(order, m[order[i] := v]);
    forall j | 0 <= j < |lhs| ensures lhs[j] == rhs[j] {
      if j != i && order[j] == order[i] {
        BelowIrreflexive(order[i]);
      }
    }
  }

  // ---------------------------------------------------------------------
  // What the string to sign is

  lemma TimestampIsNotDateKey()
    ensures !IsDateKey("Timestamp")
  {
    forall i: nat | i + 4 <= 9 ensures !OccursAt("Timestamp", "Date", i) {
      assert "Timestamp"[i..i + 4][0] == "Timestamp"[i];
    }
  }

  /** Rendering an object renders each property in turn. */
  lemma RenderPairsSpec(o: JsObject)
    ensures RenderPairs(o).Success? <==> forall i :: 0 <= i < |o| ==> RenderPair(o[i].0, o[i].1).Success?
    ensures RenderPairs(o).Success? ==>
      (|RenderPairs(o).value| == |o| &&
       forall i :: 0 <= i < |o| ==> RenderPairs(o).value[i] == RenderPair(o[i].0, o[i].1).value)
  {
    RenderPairsCollect(o);
    CollectSpec(Rendered(o));
  }

  /** Each property's pair, or the error it raises. */
  function Rendered(o: JsObject): (r: seq<Result<string, SignError>>)
    ensures |r| == |o| && forall i :: 0 <= i < |o| ==> r[i] == RenderPair(o[i].0, o[i].1)
  {
    seq(|o|, i requires 0 <= i < |o| => RenderPair(o[i].0, o[i].1))
  }

  /** All the values of a run of results, or the first error among them. */
  function Collect(rs: seq<Result<string, SignError>>): Result<seq<string>, SignError>
    decreases |rs|
  {
    if rs == [] then Success([])
    else
      match Collect(rs[..|rs| - 1])
      case Failure(e) => Failure(e)
      case Success(ps) =>
        match rs[|rs| - 1]
        case Failure(e) => Failure(e)
        case Success(p) => Success(ps + [p])
  }

  lemma {:induction false} CollectSpec(rs: seq<Result<string, SignError>>)
    ensures Collect(rs).Success? <==> forall i :: 0 <= i < |rs| ==> rs[i].Success?
    ensures Collect(rs).Success? ==>
      |Collect(rs).value| == |rs| && forall i :: 0 <= i < |rs| ==> Collect(rs).value[i] == rs[i].value
    decreases |rs|
  {
    if rs != [] {
      var init := rs[..|rs| - 1];
      CollectSpec(init);
      assert forall i :: 0 <= i < |init| ==> init[i] == rs[i];
    }
  }

  lemma {:induction false} RenderPairsCollect(o: JsObject)
    ensures RenderPairs(o) == Collect(Rendered(o))
    decreases |o|
  {
    if o != [] {
      var init := o[..|o| - 1];
      RenderPairsCollect(init);
      assert Rendered(o)[..|o| - 1] == Rendered(init);
    }
  }

  /** The text after `key=` in the signed parameter line. */
  function SignedValue(key: string, v: Value): string
  {
    if (key == "Timestamp" || IsDateKey(key)) && v.Str? then EscapeColons(v.s) else ToJsString(v)
  }

  /** The object whose pairs are signed: the Timestamp escaped, in key order. */
  ghost function TimestampEscaped(m: map<string, Value>): map<string, Value>
    requires "Timestamp" in m && m["Timestamp"].Str?
  {
    m["Timestamp" := Str(EscapeColons(m["Timestamp"].s))]
  }

  /** One signed pair, against the unescaped map. */
  lemma SignedPairAt(m: map<string, Value>, i: nat)
    requires "Timestamp" in m && m["Timestamp"].Str?
    requires i < |SortedKeys(m.Keys)|
    ensures var o := SortedEntries(TimestampEscaped(m));
      var k := SortedKeys(m.Keys)[i];
      i < |o| && o[i].0 == k &&
      (RenderPair(o[i].0, o[i].1).Success? <==> !IsDateKey(k) || m[k].Str?) &&
      (RenderPair(o[i].0, o[i].1).Success? ==> RenderPair(o[i].0, o[i].1).value == k + "=" + SignedValue(k, m[k]))
  {
    var m' := TimestampEscaped(m);
    var k := EscapedEntryAt(m, i);
    SignedPairOf(k, m[k], m'[k]);
  }

  /** The `i`-th sorted property of the escaped map is the `i`-th key. */
  lemma EscapedEntryAt(m: map<string, Value>, i: nat) returns (k: string)
    requires "Timestamp" in m && m["Timestamp"].Str?
    requires i < |SortedKeys(m.Keys)|
    ensures k == SortedKeys(m.Keys)[i] && k in m
    ensures var o := SortedEntries(TimestampEscaped(m));
      i < |o| && o[i] == (k, TimestampEscaped(m)[k])
  {
    var m' := TimestampEscaped(m);
    var ks := SortedKeys(m.Keys);
    assert m'.Keys == m.Keys;
    assert SortedEntries(m') == Entries(ks, m');
    k := ks[i];
  }

  lemma SignedPairOf(k: string, v: Value, w: Value)
    requires k == "Timestamp" ==> v.Str? && w == Str(EscapeColons(v.s))
    requires k != "Timestamp" ==> w == v
    ensures RenderPair(k, w).Success? <==> !IsDateKey(k) || v.Str?
    ensures RenderPair(k, w).Success? ==> RenderPair(k, w).value == k + "=" + SignedValue(k, v)
  {
    TimestampIsNotDateKey();
  }

  /** Signing fails exactly when the Timestamp or a Date value is not a
      string. */
  lemma SignedPairsSucceed(m: map<string, Value>)
    ensures SignedPairs(m).Success? <==>
      "Timestamp" in m && m["Timestamp"].Str? && forall k :: k in m && IsDateKey(k) ==> m[k].Str?
  {
    if "Timestamp" in m && m["Timestamp"].Str? {
      var o := SortedEntries(TimestampEscaped(m));
      RenderPairsSpec(o);
      if forall k :: k in m && IsDateKey(k) ==> m[k].Str? {
        EveryPairRenders(m);
      } else {
        var k :| k in m && IsDateKey(k) && !m[k].Str?;
        DatePairFails(m, k);
      }
    }
  }

  lemma EveryPairRenders(m: map<string, Value>)
    requires "Timestamp" in m && m["Timestamp"].Str?
    requires forall k :: k in m && IsDateKey(k) ==> m[k].Str?
    ensures var o := SortedEntries(TimestampEscaped(m));
      forall i :: 0 <= i < |o| ==> RenderPair(o[i].0, o[i].1).Success?
  {
    var o := SortedEntries(TimestampEscaped(m));
    assert |o| == |SortedKeys(m.Keys)| by { assert TimestampEscaped(m).Keys == m.Keys; }
    forall i | 0 <= i < |o| ensures RenderPair(o[i].0, o[i].1).Success? {
      SignedPairAt(m, i);
    }
  }

  lemma PairValues(m: map<string, Value>, o: JsObject, ks: seq<string>)
    requires "Timestamp" in m && m["Timestamp"].Str?
    requires o == SortedEntries(TimestampEscaped(m)) && ks == SortedKeys(m.Keys)
    ensures |o| == |ks|
    ensures forall i :: 0 <= i < |ks| && RenderPair(o[i].0, o[i].1).Success? ==>
      RenderPair(o[i].0, o[i].1).value == ks[i] + "=" + SignedValue(ks[i], m[ks[i]])
  {
    assert |o| == |ks| by { assert TimestampEscaped(m).Keys == m.Keys; }
    forall i | 0 <= i < |ks| && RenderPair(o[i].0, o[i].1).Success?
      ensures RenderPair(o[i].0, o[i].1).value == ks[i] + "=" + SignedValue(ks[i], m[ks[i]])
    {
      SignedPairAt(m, i);
    }
  }

  lemma PairsOfRendered(o: JsObject, ks: seq<string>, ps: seq<string>, m: map<string, Value>)
    requires |ps| == |o| == |ks| && forall k :: k in ks ==> k in m
    requires forall i :: 0 <= i < |o| ==> RenderPair(o[i].0, o[i].1).Success?
    requires forall i :: 0 <= i < |o| ==> ps[i] == RenderPair(o[i].0, o[i].1).value
    requires forall i :: 0 <= i < |ks| && RenderPair(o[i].0, o[i].1).Success? ==>
      RenderPair(o[i].0, o[i].1).value == ks[i] + "=" + SignedValue(ks[i], m[ks[i]])
    ensures forall i :: 0 <= i < |ks| ==> ps[i] == ks[i] + "=" + SignedValue(ks[i], m[ks[i]])
  {
  }

  lemma DatePairFails(m: map<string, Value>, k: string)
    requires "Timestamp" in m && m["Timestamp"].Str?
    requires k in m && IsDateKey(k) && !m[k].Str?
    ensures var o := SortedEntries(TimestampEscaped(m));
      exists i :: 0 <= i < |o| && RenderPair(o[i].0, o[i].1).Failure?
  {
    var ks := SortedKeys(m.Keys);
    var i :| 0 <= i < |ks| && ks[i] == k;
    SignedPairAt(m, i);
  }

  /** The signed parameters: one `key=value` per property, keys strictly
      ascending and so each once, the Timestamp and every Date value with
      its colons escaped. */
  lemma SignedPairsShape(m: map<string, Value>)
    ensures SignedPairs(m).Success? ==>
      var ks := SortedKeys(m.Keys);
      var ps := SignedPairs(m).value;
      StrictlyAscending(ks) && |ps| == |ks| == |m.Keys| &&
      forall i :: 0 <= i < |ks| ==> ps[i] == ks[i] + "=" + SignedValue(ks[i], m[ks[i]])
  {
    if SignedPairs(m).Success? {
      var o := SortedEntries(TimestampEscaped(m));
      var ks := SortedKeys(m.Keys);
      var ps := SignedPairs(m).value;
      assert RenderPairs(o) == SignedPairs(m);
      RenderPairsSpec(o);
      PairValues(m, o, ks);
      PairsOfRendered(o, ks, ps, m);
    }
  }

  /** The string to sign: four lines (the method, the host, the request path
      and the signed parameters joined by `&`), in which only the parameter
      line can be changed by the final escapes, and none of the five escaped
      characters is left. It fails with the signing error first, then with
      an unknown endpoint. */
  lemma CanonicalShape(m: map<string, Value>, ep: string)
    ensures SignedPairs(m).Failure? ==> CanonicalString(m, ep) == Failure(SignedPairs(m).error)
    ensures SignedPairs(m).Success? && EndpointFor(ep).None? ==> CanonicalString(m, ep) == Failure(UnknownEndpoint(ep))
    ensures SignedPairs(m).Success? && EndpointFor(ep).Some? ==>
      CanonicalString(m, ep) == Success(Join(["POST", Host, RequestPath(ep, EndpointFor(ep).value),
                                              EscapeForSigning(Join(SignedPairs(m).value, "&"))], "\n"))
    ensures CanonicalString(m, ep).Success? ==> forall c :: c in CanonicalString(m, ep).value ==> c !in "'*() "
  {
    if SignedPairs(m).Success? && EndpointFor(ep).Some? {
      var line := Join(SignedPairs(m).value, "&");
      EscapeOnlyParameterLine(ep, line);
      EscapeForSigningIdempotent(Join(["POST", Host, RequestPath(ep, EndpointFor(ep).value), line], "\n"));
    }
  }

  /** Of the four lines, the final escapes change only the parameter line. */
  lemma EscapeOnlyParameterLine(ep: string, line: string)
    requires EndpointFor(ep).Some?
    ensures var path := RequestPath(ep, EndpointFor(ep).value);
      EscapeForSigning(Join(["POST", Host, path, line], "\n")) == Join(["POST", Host, path, EscapeForSigning(line)], "\n")
  {
    var path := RequestPath(ep, EndpointFor(ep).value);
    JoinFour("POST", Host, path, line, "\n");
    JoinFour("POST", Host, path, EscapeForSigning(line), "\n");
    PlainHead(ep);
    assert "POST" + "\n" == "POST\n";
    EscapeHeadKept("POST" + "\n", Host + "\n", path + "\n", line);
  }

  lemma JoinFour(a: string, b: string, c: string, d: string, sep: string)
    ensures Join([a, b, c, d], sep) == a + sep + (b + sep + (c + sep + d))
  {
    assert [c, d][1..] == [d];
    assert Join([c, d], sep) == c + sep + d;
    assert [b, c, d][1..] == [c, d];
    assert Join([b, c, d], sep) == b + sep + (c + sep + d);
    assert [a, b, c, d][1..] == [b, c, d];
  }

  /** The final escapes leave unescaped leading lines as they are. */
  lemma EscapeHeadKept(a: string, b: string, c: string, d: string)
    requires Unescaped(a) && Unescaped(b) && Unescaped(c)
    ensures EscapeForSigning(a + (b + (c + d))) == a + (b + (c + EscapeForSigning(d)))
  {
    UnescapedIsSigned(a);
    UnescapedIsSigned(b);
    UnescapedIsSigned(c);
    EscapeForSigningConcat(a, b + (c + d));
    EscapeForSigningConcat(b, c + d);
    EscapeForSigningConcat(c, d);
  }

  /** Text whose characters all lie outside the range from space to `*`,
      which holds the five characters the final escapes rewrite. */
  predicate Unescaped(s: string)
  {
    forall i :: 0 <= i < |s| ==> s[i] < ' ' || '*' < s[i]
  }

  lemma UnescapedIsSigned(s: string)
    requires Unescaped(s)
    ensures EscapeForSigning(s) == s
  {
    forall c | c in s ensures c !in "'*() " {
      var i :| 0 <= i < |s| && s[i] == c;
    }
    EscapeForSigningKeepsPlain(s);
  }

  lemma UnescapedConcat(a: string, b: string)
    requires Unescaped(a) && Unescaped(b)
    ensures Unescaped(a + b)
  {
    forall i | 0 <= i < |a + b| ensures (a + b)[i] < ' ' || '*' < (a + b)[i] {
      if i >= |a| {
        assert (a + b)[i] == b[i - |a|];
      }
    }
  }

  /** The pieces of every request path. */
  lemma EndpointUnescaped(ep: string)
    requires EndpointFor(ep).Some?
    ensures Unescaped(EndpointFor(ep).value.prefix) && Unescaped(EndpointFor(ep).value.version)
    ensures Unescaped("/FulfillmentInventory/") && Unescaped("\n")
  {
    PrefixUnescaped(ep);
    VersionUnescaped(ep);
    assert Unescaped("/FulfillmentInventory/");
  }

  lemma PrefixUnescaped(ep: string)
    requires EndpointFor(ep).Some?
    ensures Unescaped(EndpointFor(ep).value.prefix)
  {
  }

  lemma VersionUnescaped(ep: string)
    requires EndpointFor(ep).Some?
    ensures Unescaped(EndpointFor(ep).value.version)
  {
  }

  lemma HostLineUnescaped()
    ensures Unescaped("POST\n") && Unescaped(Host + "\n")
  {
    assert Host + "\n" == "mws.amazonservices.jp\n";
  }

  /** The first three lines of the string to sign hold nothing the final
      escapes rewrite. */
  lemma PlainHead(ep: string)
    requires EndpointFor(ep).Some?
    ensures Unescaped("POST\n") && Unescaped(Host + "\n")
    ensures Unescaped(RequestPath(ep, EndpointFor(ep).value) + "\n")
  {
    HostLineUnescaped();
    EndpointUnescaped(ep);
    var e := EndpointFor(ep).value;
    var head := if ep == "FullFillment" then "/FulfillmentInventory/" else e.prefix;
    UnescapedConcat(head, e.version);
    UnescapedConcat(head + e.version, "\n");
  }

  /** The string to sign depends on the properties, not on their order. */
  lemma CanonicalOrderFree(p: JsObject, q: JsObject, ep: string)
    requires DistinctKeys(p) && DistinctKeys(q) && multiset(p) == multiset(q)
    ensures CanonicalString(ToMap(p), ep) == CanonicalString(ToMap(q), ep)
  {
    PermutedObjectsAgree(p, q);
  }

  // ---------------------------------------------------------------------
  // The signature

  /** The signature of the merged map `m`: the keyed hash of its string to
      sign. The hash (HMAC-SHA256, then base64) is the parameter `hmac`; the
      key is checked before anything else is computed. */
  ghost function SignatureFor(secretKey: Value, m: map<string, Value>, ep: string,
                              hmac: (Value, string) -> string): Result<string, SignError>
  {
    if !secretKey.Str? then Failure(BadKey)
    else match CanonicalString(m, ep)
    case Failure(e) => Failure(e)
    case Success(s) => Success(hmac(secretKey, s))
  }

  /** `generateSignature(config, params, ep)`. */
  method GenerateSignature(secretKey: Value, params: JsObject, ep: string, hmac: (Value, string) -> string)
    returns (r: Result<string, SignError>)
    requires DistinctKeys(params)
    ensures r == SignatureFor(secretKey, ToMap(params), ep, hmac)
  {
    if !secretKey.Str? {
      return Failure(BadKey);
    }
    var stringToSign := StringToSign(params, ep);
    if stringToSign.Failure? {
      return Failure(stringToSign.error);
    }
    r := Success(hmac(secretKey, stringToSign.value));
  }

  // ---------------------------------------------------------------------
  // The request

  /** The fields of `config/config.json` the client reads. */
  datatype Config = Config(sellerId: Value, developerAccountNumber: Value, awsAccessKeyId: Value,
                           secretKey: Value, marketplaceId: Value)

  /** The fields every request carries, in the order the source writes them. */
  function FixedFields(config: Config, action: Value, timestamp: string, version: string): (r: JsObject)
    ensures DistinctKeys(r)
  {
    [("AWSAccessKeyId", config.awsAccessKeyId), ("Action", action), ("SellerId", config.sellerId),
     ("SignatureVersion", Str("2")), ("SignatureMethod", Str("HmacSHA256")),
     ("Timestamp", Str(timestamp)), ("Version", Str(version))]
  }

  /** The fixed fields do not include a signature. */
  lemma SignatureNotFixed(config: Config, action: Value, timestamp: string, version: string)
    ensures !Has(FixedFields(config, action, timestamp, version), "Signature")
  {
    var o := FixedFields(config, action, timestamp, version);
    forall i | 0 <= i < |o| ensures o[i].0 != "Signature" {
      if i == 5 {
        assert o[i].0[0] == 'T';
      } else {
        assert |o[i].0| != 9;
      }
    }
  }

  /** An HTTPS POST to the service: the path carries the encoded form as
      its query, and the same text is written as the body. */
  datatype Request = Request(host: string, path: string, form: JsObject, body: string)

  /** `body.replace(/%253A/g, "%3A")`. */
  function FixQuery(s: string): string
  {
    ReplaceAll(s, "%253A", "%3A")
  }

  /** `createRequest` up to the send. `now` is the clock's ISO string,
      `stringify` the query-string encoder. */
  method CreateRequest(now: string, config: Config, action: Value, epName: string, parameters: JsObject,
                       hmac: (Value, string) -> string, stringify: JsObject -> string)
    returns (r: Result<Request, SignError>)
    requires DistinctKeys(parameters)
    ensures r == RequestFor(now, config, action, epName, parameters, hmac, stringify)
  {
    var tstamp := TrimToSeconds(now);
    var e := EndpointFor(epName);
    if e.None? {
      return Failure(UnknownEndpoint(epName));
    }
    var paramObj := FixedFields(config, action, tstamp, e.value.version);
    ghost var fixed := paramObj;
    for n := 0 to |parameters|
      invariant paramObj == Assign(fixed, parameters[..n])
    {
      assert parameters[..n + 1][..n] == parameters[..n];
      paramObj := Put(paramObj, parameters[n].0, parameters[n].1);
    }
    assert parameters[..|parameters|] == parameters;
    AssignSpec(fixed, parameters);

    var signature := GenerateSignature(config.secretKey, paramObj, epName, hmac);
    if signature.Failure? {
      return Failure(signature.error);
    }
    paramObj := Put(paramObj, "Signature", Str(signature.value));
    var body := FixQuery(stringify(paramObj));
    r := Success(Request(Host, RequestPath(epName, e.value) + "?" + body, paramObj, body));
  }

  /** The object sent before its signature: the fixed fields, then the
      caller's parameters assigned over them. */
  ghost function Merged(now: string, config: Config, action: Value, version: string, parameters: JsObject): JsObject
  {
    Assign(FixedFields(config, action, TrimToSeconds(now), version), parameters)
  }

  ghost function RequestFor(now: string, config: Config, action: Value, epName: string, parameters: JsObject,
                            hmac: (Value, string) -> string, stringify: JsObject -> string): Result<Request, SignError>
  {
    match EndpointFor(epName)
    case None => Failure(UnknownEndpoint(epName))
    case Some(e) =>
      var merged := Merged(now, config, action, e.version, parameters);
      match SignatureFor(config.secretKey, ToMap(merged), epName, hmac)
      case Failure(err) => Failure(err)
      case Success(signature) =>
        var form := Put(merged, "Signature", Str(signature));
        var body := FixQuery(stringify(form));
        Success(Request(Host, RequestPath(epName, e) + "?" + body, form, body))
  }

  /** What is signed: the fixed fields first and in their order, the
      caller's parameters assigned over them. */
  lemma MergedSpec(now: string, config: Config, action: Value, version: string, parameters: JsObject)
    requires DistinctKeys(parameters)
    ensures var fixed := FixedFields(config, action, TrimToSeconds(now), version);
      var merged := Merged(now, config, action, version, parameters);
      DistinctKeys(merged) &&
      ToMap(merged) == ToMap(fixed) + ToMap(parameters) &&
      |fixed| <= |merged| && Keys(merged)[..|fixed|] == Keys(fixed)
  {
    var fixed := FixedFields(config, action, TrimToSeconds(now), version);
    AssignOverrides(fixed, parameters);
    AssignSpec(fixed, parameters);
    AssignKeepsOrder(fixed, parameters);
  }

  /** What is sent: what was signed, then `Signature`, assigned last and
      computed over everything else that is sent; the path carries the
      same encoded form as the body. */
  lemma RequestForm(now: string, config: Config, action: Value, epName: string, parameters: JsObject,
                    hmac: (Value, string) -> string, stringify: JsObject -> string)
    requires DistinctKeys(parameters)
    ensures var r := RequestFor(now, config, action, epName, parameters, hmac, stringify);
      r.Success? ==>
        var e := EndpointFor(epName).value;
        var merged := Merged(now, config, action, e.version, parameters);
        var signature := SignatureFor(config.secretKey, ToMap(merged), epName, hmac);
        signature.Success? &&
        ToMap(r.value.form) == ToMap(merged)["Signature" := Str(signature.value)] &&
        Keys(r.value.form)[..|merged|] == Keys(merged) &&
        (!Has(parameters, "Signature") ==> Keys(r.value.form) == Keys(merged) + ["Signature"]) &&
        r.value.host == Host &&
        r.value.path == RequestPath(epName, e) + "?" + r.value.body &&
        r.value.body == FixQuery(stringify(r.value.form))
  {
    var r := RequestFor(now, config, action, epName, parameters, hmac, stringify);
    if r.Success? {
      var e := EndpointFor(epName).value;
      var merged := Merged(now, config, action, e.version, parameters);
      MergedSpec(now, config, action, e.version, parameters);
      var signature := SignatureFor(config.secretKey, ToMap(merged), epName, hmac);
      PutMap(merged, "Signature", Str(signature.value));
      PutKeys(merged, "Signature", Str(signature.value));
      if !Has(parameters, "Signature") {
        SignatureNotFixed(config, action, TrimToSeconds(now), e.version);
      }
    }
  }

  /** Unless the caller passes its own, the Timestamp sent is the clock's
      time cut to seconds, and it is the same value that was signed. */
  lemma RequestTimestamp(now: string, config: Config, action: Value, epName: string, parameters: JsObject,
                         hmac: (Value, string) -> string, stringify: JsObject -> string)
    requires DistinctKeys(parameters) && !Has(parameters, "Timestamp")
    ensures var r := RequestFor(now, config, action, epName, parameters, hmac, stringify);
      r.Success? ==>
        var merged := Merged(now, config, action, EndpointFor(epName).value.version, parameters);
        ToMap(merged)["Timestamp"] == Str(TrimToSeconds(now)) &&
        Get(r.value.form, "Timestamp") == Str(TrimToSeconds(now))
  {
    var r := RequestFor(now, config, action, epName, parameters, hmac, stringify);
    if r.Success? {
      var e := EndpointFor(epName).value;
      var fixed := FixedFields(config, action, TrimToSeconds(now), e.version);
      MergedSpec(now, config, action, e.version, parameters);
      GetAt(fixed, 5);
      RequestForm(now, config, action, epName, parameters, hmac, stringify);
      assert ToMap(r.value.form)["Timestamp"] == Str(TrimToSeconds(now));
    }
  }

  /** A key without a capital D is not a Date key. */
  lemma NoCapitalD(key: string)
    requires forall i :: 0 <= i < |key| ==> key[i] != 'D'
    ensures !IsDateKey(key)
  {
    forall i: nat | i + 4 <= |key| ensures !OccursAt(key, "Date", i) {
      assert key[i..i + 4][0] == key[i];
    }
  }

  /** None of the fixed fields is a Date key. */
  lemma FixedFieldsNotDates(config: Config, action: Value, timestamp: string, version: string)
    ensures forall k :: Has(FixedFields(config, action, timestamp, version), k) ==> !IsDateKey(k)
  {
    var o := FixedFields(config, action, timestamp, version);
    forall i | 0 <= i < |o| ensures !IsDateKey(o[i].0) {
      NoCapitalD(o[i].0);
    }
  }

  /** A request is built exactly when the section is known, the secret key
      is a string, the Timestamp is still a string, and every Date parameter
      is a string. */
  lemma RequestSucceeds(now: string, config: Config, action: Value, epName: string, parameters: JsObject,
                        hmac: (Value, string) -> string, stringify: JsObject -> string)
    requires DistinctKeys(parameters)
    ensures RequestFor(now, config, action, epName, parameters, hmac, stringify).Success? <==>
      EndpointFor(epName).Some? && config.secretKey.Str? &&
      (Has(parameters, "Timestamp") ==> Get(parameters, "Timestamp").Str?) &&
      forall k :: Has(parameters, k) && IsDateKey(k) ==> Get(parameters, k).Str?
  {
    if EndpointFor(epName).Some? && config.secretKey.Str? {
      var e := EndpointFor(epName).value;
      var fixed := FixedFields(config, action, TrimToSeconds(now), e.version);
      var merged := Merged(now, config, action, e.version, parameters);
      MergedSpec(now, config, action, e.version, parameters);
      FixedFieldsNotDates(config, action, TrimToSeconds(now), e.version);
      GetAt(fixed, 5);
      SignedPairsSucceed(ToMap(merged));
      CanonicalShape(ToMap(merged), epName);
    }
  }

  /** The signature and the properties sent do not depend on the order in
      which the caller lists its parameters. */
  lemma RequestOrderFree(now: string, config: Config, action: Value, epName: string, p: JsObject, q: JsObject,
                         hmac: (Value, string) -> string, stringify: JsObject -> string)
    requires DistinctKeys(p) && DistinctKeys(q) && multiset(p) == multiset(q)
    ensures var rp := RequestFor(now, config, action, epName, p, hmac, stringify);
      var rq := RequestFor(now, config, action, epName, q, hmac, stringify);
      rp.Success? == rq.Success? &&
      (rp.Success? ==> ToMap(rp.value.form) == ToMap(rq.value.form) &&
                       Get(rp.value.form, "Signature") == Get(rq.value.form, "Signature"))
  {
    if EndpointFor(epName).Some? {
      var e := EndpointFor(epName).value;
      PermutedObjectsAgree(p, q);
      MergedSpec(now, config, action, e.version, p);
      MergedSpec(now, config, action, e.version, q);
      RequestForm(now, config, action, epName, p, hmac, stringify);
      RequestForm(now, config, action, epName, q, hmac, stringify);
    }
  }

  // ---------------------------------------------------------------------
  // The query fix-up

  /** A body without a doubly escaped colon is sent as encoded. */
  lemma FixQueryUntouched(s: string)
    requires !Occurs(s, "%253A")
    ensures FixQuery(s) == s
  {
    ReplaceAbsent(s, "%253A", "%3A");
  }

  /** Each doubly escaped colon becomes `%3A`, scanning left to right. */
  lemma {:induction false} FixQuerySplit(a: string, b: string)
    requires !Occurs(a, "%253A")
    ensures FixQuery(a + "%253A" + b) == a + "%3A" + FixQuery(b)
    decreases |a|
  {
    var s := a + "%253A" + b;
    if a == [] {
      assert s == "%253A" + b;
      assert s[..5] == "%253A" && s[5..] == b;
    } else {
      NoMatchBeforeFirst(a, b);
      TailAbsent(a, "%253A");
      FixQuerySplit(a[1..], b);
      assert s[1..] == a[1..] + "%253A" + b;
      assert [s[0]] + (a[1..] + "%3A" + FixQuery(b)) == a + "%3A" + FixQuery(b);
    }
  }

  /** No occurrence starts inside `a`: a `%` is only the first character of
      the pattern. */
  lemma NoMatchBeforeFirst(a: string, b: string)
    requires a != [] && !Occurs(a, "%253A")
    ensures (a + "%253A" + b)[..5] != "%253A"
  {
    var P := "%253A";
    var s := a + P + b;
    if |a| >= 5 {
      assert s[..5] == a[..5];
      assert !OccursAt(a, P, 0);
    } else {
      assert s[..5][|a|] == s[|a|] == '%';
      assert P[|a|] != '%';
    }
  }

  // ---------------------------------------------------------------------
  // The configuration check

  /** What `checkConfig` answers, and the line it logs when it refuses. */
  datatype ConfigCheck = ConfigCheck(ok: bool, log: Option<string>)

  /** The fields `checkConfig` inspects, in the order it inspects them. */
  function ConfigFields(c: Config): seq<(string, Value)>
  {
    [("SellerId", c.sellerId), ("DeveloperAccountNumber", c.developerAccountNumber),
     ("AWSAccessKeyId", c.awsAccessKeyId), ("SecretKey", c.secretKey), ("MarketplaceId", c.marketplaceId)]
  }

  function MissingMessage(name: string): string
  {
    "please input " + name + ". (config/config.json) "
  }

  /** `checkConfig()`: every field must be truthy; the first one that is
      not is named in the log. */
  function CheckConfig(c: Config): (r: ConfigCheck)
    ensures r.ok <==> forall i :: 0 <= i < |ConfigFields(c)| ==> Truthy(ConfigFields(c)[i].1)
    ensures r.ok <==> r.log.None?
    ensures forall i :: 0 <= i < |ConfigFields(c)| && !Truthy(ConfigFields(c)[i].1) &&
                        (forall j :: 0 <= j < i ==> Truthy(ConfigFields(c)[j].1)) ==>
                          r.log == Some(MissingMessage(ConfigFields(c)[i].0))
  {
    var f := ConfigFields(c);
    assert f[0] == ("SellerId", c.sellerId) && f[1] == ("DeveloperAccountNumber", c.developerAccountNumber);
    assert f[2] == ("AWSAccessKeyId", c.awsAccessKeyId) && f[3] == ("SecretKey", c.secretKey);
    assert f[4] == ("MarketplaceId", c.marketplaceId) && |f| == 5;
    if !Truthy(c.sellerId) then ConfigCheck(false, Some(MissingMessage("SellerId")))
    else if !Truthy(c.developerAccountNumber) then ConfigCheck(false, Some(MissingMessage("DeveloperAccountNumber")))
    else if !Truthy(c.awsAccessKeyId) then ConfigCheck(false, Some(MissingMessage("AWSAccessKeyId")))
    else if !Truthy(c.secretKey) then ConfigCheck(false, Some(MissingMessage("SecretKey")))
    else if !Truthy(c.marketplaceId) then ConfigCheck(false, Some(MissingMessage("MarketplaceId")))
    else ConfigCheck(true, None)
  }
}
