/** The key patterns with which lib/products.js picks the entries of a list
    parameter: regular expressions made of literal characters, `.`, a
    character class taken once and a character class taken any number of
    times, applied with `RegExp.prototype.test`, which succeeds when the
    pattern matches anywhere in the key. */
module KeyPatterns {
  import opened JsValues

  /** One character position of a pattern: a literal character, `.` or a
      class `[lo-hi]`. */
  datatype Atom = Char(c: char) | AnyChar | Range(lo: char, hi: char)

  /** An atom taken once (`a` or `a{1}`) or any number of times (`a*`). */
  datatype Term = One(atom: Atom) | Many(atom: Atom)

  type Pattern = seq<Term>

  predicate AtomMatches(a: Atom, c: char)
  {
    match a
    case Char(d) => c == d
    case AnyChar => !IsLineTerminator(c)
    case Range(lo, hi) => lo <= c <= hi
  }

  /** The terms of `p` match a stretch of `s` that starts at `i`; a starred
      atom may match no character at all. */
  predicate MatchFrom(p: Pattern, s: string, i: nat)
    requires i <= |s|
    decreases |p|, |s| - i
  {
    if p == [] then true
    else match p[0]
      case One(a) => i < |s| && AtomMatches(a, s[i]) && MatchFrom(p[1..], s, i + 1)
      case Many(a) => MatchFrom(p[1..], s, i) || (i < |s| && AtomMatches(a, s[i]) && MatchFrom(p, s, i + 1))
  }

  /** `/p/.test(s)`: a match that starts anywhere in `s`. */
  predicate Test(p: Pattern, s: string)
  {
    exists i | 0 <= i <= |s| :: MatchFrom(p, s, i)
  }

  /** The literal characters of `w`, one term each. */
  function Literal(w: string): Pattern
  {
    seq(|w|, j requires 0 <= j < |w| => One(Char(w[j])))
  }

  /** The shape shared by every list pattern: the list name, a separator, the
      item name, a separator and one digit from 1 to `hi`, followed by
      `[1-9]*` when `star` holds. */
  function ListPattern(list: string, sep: Atom, item: string, hi: char, star: bool): Pattern
  {
    Literal(list) + ([One(sep)] + (Literal(item) + ([One(sep), One(Range('1', hi))] + (if star then [Many(Range('1', '9'))] else []))))
  }

  // The patterns as lib/products.js writes them.

  // `/ASINList.ASIN.[1-5]{1}/`, GetMatchingProduct (lib/products.js:102).
  const AsinUpToFive: Pattern := ListPattern("ASINList", AnyChar, "ASIN", '5', false)

  // `/IdList.Id.[1-5]{1}/g`, GetMatchingProductForId (lib/products.js:149).
  // The literal is evaluated afresh on every iteration, so the `g` flag's
  // `lastIndex` always starts at 0 and the flag changes nothing.
  const IdUpToFive: Pattern := ListPattern("IdList", AnyChar, "Id", '5', false)

  // `/SellerSKUList.SellerSKU.[1-9]{1}[1-9]*` followed by `/`, the SellerSKU
  // list operations (lib/products.js:198, 303, 410).
  const SellerSkus: Pattern := ListPattern("SellerSKUList", AnyChar, "SellerSKU", '9', true)

  // The same shape with escaped dots, `ASINList\.ASIN\.[1-9]{1}[1-9]*`,
  // GetCompetitivePricingForASIN (lib/products.js:241).
  const AsinsDotted: Pattern := ListPattern("ASINList", Char('.'), "ASIN", '9', true)

  // `ASINList.ASIN.[1-9]{1}[1-9]*` with unescaped dots, the other ASIN list
  // operations (lib/products.js:357, 458).
  const Asins: Pattern := ListPattern("ASINList", AnyChar, "ASIN", '9', true)

  // ---------------------------------------------------------------------
  // The explicit reading

  /** At position `i` the key holds `list`, a separator, `item`, a separator
      and a digit from 1 to `hi`. */
  predicate ListKeyAt(k: string, i: nat, list: string, sep: Atom, item: string, hi: char)
  {
    var j := i + |list|;
    var d := j + 1 + |item|;
    d + 1 < |k| &&
    k[i..j] == list && AtomMatches(sep, k[j]) &&
    k[j + 1..d] == item && AtomMatches(sep, k[d]) &&
    '1' <= k[d + 1] <= hi
  }

  predicate ContainsListKey(k: string, list: string, sep: Atom, item: string, hi: char)
  {
    exists i | 0 <= i < |k| :: ListKeyAt(k, i, list, sep, item, hi)
  }

  lemma {:induction false} LiteralThen(w: string, rest: Pattern, s: string, i: nat)
    requires i <= |s|
    ensures MatchFrom(Literal(w) + rest, s, i) <==>
      i + |w| <= |s| && s[i..i + |w|] == w && MatchFrom(rest, s, i + |w|)
    decreases |w|
  {
    if w != [] {
      var p := Literal(w) + rest;
      assert p[0] == One(Char(w[0]));
      assert p[1..] == Literal(w[1..]) + rest;
      if i < |s| {
        LiteralThen(w[1..], rest, s, i + 1);
        if i + |w| <= |s| {
          assert s[i..i + |w|] == [s[i]] + s[i + 1..i + |w|];
        }
      }
    } else {
      assert Literal(w) + rest == rest;
    }
  }

  lemma OneThen(a: Atom, rest: Pattern, s: string, i: nat)
    requires i <= |s|
    ensures MatchFrom([One(a)] + rest, s, i) <==> i < |s| && AtomMatches(a, s[i]) && MatchFrom(rest, s, i + 1)
  {
    assert ([One(a)] + rest)[1..] == rest;
  }

  lemma TailAlwaysMatches(star: bool, s: string, i: nat)
    requires i <= |s|
    ensures MatchFrom(if star then [Many(Range('1', '9'))] else [], s, i)
  {
    if star {
      assert [Many(Range('1', '9'))][1..] == [];
    }
  }

  /** A list pattern matches at `i` exactly when the explicit reading holds
      there; the trailing `[1-9]*` never makes a difference. */
  lemma ListPatternAt(k: string, i: nat, list: string, sep: Atom, item: string, hi: char, star: bool)
    requires i <= |k|
    ensures MatchFrom(ListPattern(list, sep, item, hi, star), k, i) <==> ListKeyAt(k, i, list, sep, item, hi)
  {
    var tail: Pattern := if star then [Many(Range('1', '9'))] else [];
    var p4: Pattern := [One(sep), One(Range('1', hi))] + tail;
    var p3 := Literal(item) + p4;
    var p2 := [One(sep)] + p3;
    var j := i + |list|;
    var d := j + 1 + |item|;
    LiteralThen(list, p2, k, i);
    if j <= |k| {
      OneThen(sep, p3, k, j);
      if j < |k| {
        LiteralThen(item, p4, k, j + 1);
        if d <= |k| {
          assert p4 == [One(sep)] + ([One(Range('1', hi))] + tail);
          OneThen(sep, [One(Range('1', hi))] + tail, k, d);
          if d < |k| {
            OneThen(Range('1', hi), tail, k, d + 1);
            if d + 1 < |k| {
              TailAlwaysMatches(star, k, d + 2);
            }
          }
        }
      }
    }
  }

  /** What `test` accepts for a list pattern, spelled out. */
  lemma ListPatternMeaning(k: string, list: string, sep: Atom, item: string, hi: char, star: bool)
    ensures Test(ListPattern(list, sep, item, hi, star), k) <==> ContainsListKey(k, list, sep, item, hi)
  {
    var p := ListPattern(list, sep, item, hi, star);
    if Test(p, k) {
      var i :| 0 <= i <= |k| && MatchFrom(p, k, i);
      ListPatternAt(k, i, list, sep, item, hi, star);
    }
    if ContainsListKey(k, list, sep, item, hi) {
      var i :| 0 <= i < |k| && ListKeyAt(k, i, list, sep, item, hi);
      ListPatternAt(k, i, list, sep, item, hi, star);
    }
  }

  /** `[1-9]*` at the end of an unanchored pattern accepts nothing more and
      nothing less. */
  lemma StarChangesNothing(k: string, list: string, sep: Atom, item: string, hi: char)
    ensures Test(ListPattern(list, sep, item, hi, true), k) <==> Test(ListPattern(list, sep, item, hi, false), k)
  {
    ListPatternMeaning(k, list, sep, item, hi, true);
    ListPatternMeaning(k, list, sep, item, hi, false);
  }

  /** A key a list pattern accepts contains the list name. */
  lemma ListNameOccurs(k: string, list: string, sep: Atom, item: string, hi: char, star: bool)
    requires Test(ListPattern(list, sep, item, hi, star), k)
    ensures Occurs(k, list)
  {
    ListPatternMeaning(k, list, sep, item, hi, star);
    var i :| 0 <= i < |k| && ListKeyAt(k, i, list, sep, item, hi);
    assert OccursAt(k, list, i);
  }

  /** The patterns of the operations, each one an instance of the shared shape. */
  predicate IsKeyPattern(p: Pattern)
  {
    p == AsinUpToFive || p == IdUpToFive || p == SellerSkus || p == AsinsDotted || p == Asins
  }

  /** A key without a capital L is never taken from a list: every list name
      ("ASINList", "IdList", "SellerSKUList") contains one. */
  lemma NoListLetterNoMatch(p: Pattern, k: string)
    requires IsKeyPattern(p)
    requires forall i :: 0 <= i < |k| ==> k[i] != 'L'
    ensures !Test(p, k)
  {
    if p == AsinUpToFive {
      MissingLetter(k, "ASINList", AnyChar, "ASIN", '5', false, 4);
    } else if p == IdUpToFive {
      MissingLetter(k, "IdList", AnyChar, "Id", '5', false, 2);
    } else if p == SellerSkus {
      MissingLetter(k, "SellerSKUList", AnyChar, "SellerSKU", '9', true, 9);
    } else if p == AsinsDotted {
      MissingLetter(k, "ASINList", Char('.'), "ASIN", '9', true, 4);
    } else {
      MissingLetter(k, "ASINList", AnyChar, "ASIN", '9', true, 4);
    }
  }

  lemma MissingLetter(k: string, list: string, sep: Atom, item: string, hi: char, star: bool, at: nat)
    requires at < |list|
    requires forall i :: 0 <= i < |k| ==> k[i] != list[at]
    ensures !Test(ListPattern(list, sep, item, hi, star), k)
  {
    if Test(ListPattern(list, sep, item, hi, star), k) {
      ListNameOccurs(k, list, sep, item, hi, star);
    }
  }

  /** The keys the operations set themselves are never taken from a list. */
  lemma FixedKeysNeverMatch(p: Pattern)
    requires IsKeyPattern(p)
    ensures !Test(p, "MarketplaceId") && !Test(p, "IdType") && !Test(p, "ItemCondition")
    ensures !Test(p, "ExcludeMe") && !Test(p, "QueryContextId")
  {
    NoListLetterNoMatch(p, "MarketplaceId");
    NoListLetterNoMatch(p, "IdType");
    NoListLetterNoMatch(p, "ItemCondition");
    NoListLetterNoMatch(p, "ExcludeMe");
    NoListLetterNoMatch(p, "QueryContextId");
  }

  // ---------------------------------------------------------------------
  // How the patterns relate

  /** The escaped-dot pattern accepts fewer keys than the unescaped one. */
  lemma DottedIsStricter(k: string)
    ensures Test(AsinsDotted, k) ==> Test(Asins, k)
  {
    ListPatternMeaning(k, "ASINList", Char('.'), "ASIN", '9', true);
    ListPatternMeaning(k, "ASINList", AnyChar, "ASIN", '9', true);
    if Test(AsinsDotted, k) {
      var i :| 0 <= i < |k| && ListKeyAt(k, i, "ASINList", Char('.'), "ASIN", '9');
      assert ListKeyAt(k, i, "ASINList", AnyChar, "ASIN", '9');
    }
  }

  /** The `[1-5]` pattern of GetMatchingProduct accepts fewer keys than the
      `[1-9]` one. */
  lemma UpToFiveIsStricter(k: string)
    ensures Test(AsinUpToFive, k) ==> Test(Asins, k)
  {
    ListPatternMeaning(k, "ASINList", AnyChar, "ASIN", '5', false);
    ListPatternMeaning(k, "ASINList", AnyChar, "ASIN", '9', true);
    if Test(AsinUpToFive, k) {
      var i :| 0 <= i < |k| && ListKeyAt(k, i, "ASINList", AnyChar, "ASIN", '5');
      assert ListKeyAt(k, i, "ASINList", AnyChar, "ASIN", '9');
    }
  }
  // ---------------------------------------------------------------------
  // Keys as callers write them

  /** The documented key shape is accepted by every ASIN pattern. */
  lemma FirstAsinAccepted()
    ensures Test(AsinUpToFive, "ASINList.ASIN.1") && Test(Asins, "ASINList.ASIN.1")
    ensures Test(AsinsDotted, "ASINList.ASIN.1")
  {
    var k := "ASINList.ASIN.1";
    assert ListKeyAt(k, 0, "ASINList", AnyChar, "ASIN", '5');
    assert ListKeyAt(k, 0, "ASINList", AnyChar, "ASIN", '9');
    assert ListKeyAt(k, 0, "ASINList", Char('.'), "ASIN", '9');
    ListPatternMeaning(k, "ASINList", AnyChar, "ASIN", '5', false);
    ListPatternMeaning(k, "ASINList", AnyChar, "ASIN", '9', true);
    ListPatternMeaning(k, "ASINList", Char('.'), "ASIN", '9', true);
  }

  /** The test is unanchored, so the `[1-5]` of GetMatchingProduct does not
      stop a tenth ASIN: the key contains "ASINList.ASIN.1". */
  lemma TenthAsinAccepted()
    ensures Test(AsinUpToFive, "ASINList.ASIN.10")
  {
    assert ListKeyAt("ASINList.ASIN.10", 0, "ASINList", AnyChar, "ASIN", '5');
    ListPatternMeaning("ASINList.ASIN.10", "ASINList", AnyChar, "ASIN", '5', false);
  }

  /** A sixth ASIN is dropped by GetMatchingProduct and kept by the other
      ASIN operations. */
  lemma SixthAsin()
    ensures !Test(AsinUpToFive, "ASINList.ASIN.6") && Test(Asins, "ASINList.ASIN.6")
  {
    var k := "ASINList.ASIN.6";
    ListPatternMeaning(k, "ASINList", AnyChar, "ASIN", '5', false);
    ListPatternMeaning(k, "ASINList", AnyChar, "ASIN", '9', true);
    assert ListKeyAt(k, 0, "ASINList", AnyChar, "ASIN", '9');
    forall i | 0 <= i < |k| ensures !ListKeyAt(k, i, "ASINList", AnyChar, "ASIN", '5') {
      if i == 0 {
        assert k[14] == '6';
      }
    }
  }

  /** An unescaped `.` accepts any separator; the escaped one only a dot. */
  lemma OtherSeparator()
    ensures Test(Asins, "ASINList-ASIN-1") && !Test(AsinsDotted, "ASINList-ASIN-1")
  {
    var k := "ASINList-ASIN-1";
    ListPatternMeaning(k, "ASINList", AnyChar, "ASIN", '9', true);
    ListPatternMeaning(k, "ASINList", Char('.'), "ASIN", '9', true);
    assert ListKeyAt(k, 0, "ASINList", AnyChar, "ASIN", '9');
    forall i | 0 <= i < |k| ensures !ListKeyAt(k, i, "ASINList", Char('.'), "ASIN", '9') {
      if i == 0 {
        assert k[8] == '-';
      }
    }
  }

  /** A zero index is never accepted. */
  lemma ZeroIndexRejected()
    ensures !Test(SellerSkus, "SellerSKUList.SellerSKU.0")
  {
    var k := "SellerSKUList.SellerSKU.0";
    ListPatternMeaning(k, "SellerSKUList", AnyChar, "SellerSKU", '9', true);
    forall i | 0 <= i < |k| ensures !ListKeyAt(k, i, "SellerSKUList", AnyChar, "SellerSKU", '9') {
      if i == 0 {
        assert k[24] == '0';
      }
    }
  }
}
