/**
 * The currency catalogue endpoint (`GET /api/currencies`): the currency codes of all country
 * specifications, each kept once, named and given a symbol from a fixed table (or the
 * upper-cased code), ordered with the popular currencies first in a fixed order and the rest
 * alphabetically; and the fixed list returned when the provider call fails.
 */
module Currencies {
  import opened Wrappers
  import Js

  /** An entry of the fixed `currencyInfo` table. */
  datatype Info = Info(symbol: string, name: string)

  const CurrencyInfo: map<string, Info> := map[
    "usd" := Info("$", "US Dollar"),
    "eur" := Info("€", "Euro"),
    "gbp" := Info("£", "British Pound"),
    "jpy" := Info("¥", "Japanese Yen"),
    "cad" := Info("C$", "Canadian Dollar"),
    "aud" := Info("A$", "Australian Dollar"),
    "chf" := Info("CHF", "Swiss Franc"),
    "cny" := Info("¥", "Chinese Yuan"),
    "inr" := Info("₹", "Indian Rupee"),
    "sgd" := Info("S$", "Singapore Dollar"),
    "hkd" := Info("HK$", "Hong Kong Dollar"),
    "nzd" := Info("NZ$", "New Zealand Dollar"),
    "sek" := Info("kr", "Swedish Krona"),
    "nok" := Info("kr", "Norwegian Krone"),
    "dkk" := Info("kr", "Danish Krone"),
    "pln" := Info("zł", "Polish Złoty"),
    "mxn" := Info("MX$", "Mexican Peso"),
    "brl" := Info("R$", "Brazilian Real"),
    "krw" := Info("₩", "South Korean Won"),
    "zar" := Info("R", "South African Rand")]

  /** The currencies listed first, in this order. */
  const PopularCurrencies: seq<string> := ["usd", "eur", "gbp", "jpy", "cad", "aud", "chf", "cny"]

  /** A country specification, reduced to the field the endpoint reads. */
  datatype CountrySpec = CountrySpec(supportedPaymentCurrencies: seq<string>)

  /** A value of `currencyMap`. */
  datatype NamedCurrency = NamedCurrency(code: string, name: string)

  /** An entry of the response's `currencies` list. */
  datatype Currency = Currency(code: string, name: string, symbol: string)

  /** The display name: from the table, else the upper-cased code. */
  function NameOf(code: string): (n: string)
  {
    if code in CurrencyInfo then CurrencyInfo[code].name else Js.ToUpperCase(code)
  }

  /** The symbol: from the table, else the upper-cased code. */
  function SymbolOf(code: string): (s: string)
  {
    if code in CurrencyInfo && CurrencyInfo[code].symbol != "" then CurrencyInfo[code].symbol
    else Js.ToUpperCase(code)
  }

  // ---------------------------------------------------------------------------
  // Collecting the codes (route.ts, the nested for loops)

  /** All supported currencies of the specifications, in visiting order, repeats included. */
  function AllCodes(specs: seq<CountrySpec>): seq<string>
  {
    if specs == [] then []
    else AllCodes(specs[..|specs| - 1]) + specs[|specs| - 1].supportedPaymentCurrencies
  }

  /** The insertion order of a `Map` whose keys were `d`, after setting each code of `codes` in
      turn: a code already present keeps its place, a new one goes last. */
  function Extend(d: seq<string>, codes: seq<string>): seq<string>
    decreases |codes|
  {
    if codes == [] then d
    else Extend(if codes[0] in d then d else d + [codes[0]], codes[1..])
  }

  /** `s` with every later occurrence of a code dropped: the insertion order of a `Map` filled from `s`. */
  function Dedup(s: seq<string>): seq<string>
  {
    Extend([], s)
  }

  predicate Distinct(s: seq<string>)
  {
    forall i, j :: 0 <= i < j < |s| ==> s[i] != s[j]
  }

  /** Setting the codes of `a + b` is setting those of `a`, then those of `b`. */
  lemma {:induction false} ExtendAppend(d: seq<string>, a: seq<string>, b: seq<string>)
    ensures Extend(d, a + b) == Extend(Extend(d, a), b)
    decreases |a|
  {
    if a == [] {
      assert a + b == b;
    } else {
      assert (a + b)[0] == a[0] && (a + b)[1..] == a[1..] + b;
      ExtendAppend(if a[0] in d then d else d + [a[0]], a[1..], b);
    }
  }

  /** Extending keeps the codes already there, adds exactly the new ones and repeats none. */
  lemma {:induction false} ExtendIsSet(d: seq<string>, codes: seq<string>)
    requires Distinct(d)
    ensures forall x :: x in Extend(d, codes) <==> x in d || x in codes
    ensures Distinct(Extend(d, codes))
    decreases |codes|
  {
    if codes != [] {
      var d' := if codes[0] in d then d else d + [codes[0]];
      ExtendIsSet(d', codes[1..]);
      assert forall x :: x in codes <==> x == codes[0] || x in codes[1..];
    }
  }

  /** Deduplication keeps every code of `s`, adds none, and repeats none. */
  lemma DedupIsSet(s: seq<string>)
    ensures forall x :: x in Dedup(s) <==> x in s
    ensures Distinct(Dedup(s))
  {
    ExtendIsSet([], s);
  }

  /** The entry a code gets on its first occurrence. */
  function Named(codes: seq<string>): (entries: seq<NamedCurrency>)
    ensures |entries| == |codes|
    ensures forall i :: 0 <= i < |codes| ==> entries[i] == NamedCurrency(codes[i], NameOf(codes[i]))
  {
    seq(|codes|, i requires 0 <= i < |codes| => NamedCurrency(codes[i], NameOf(codes[i])))
  }

  /** One more specification visited: its currencies follow those of the ones before. */
  lemma AllCodesSnoc(specs: seq<CountrySpec>, spec: CountrySpec)
    ensures AllCodes(specs + [spec]) == AllCodes(specs) + spec.supportedPaymentCurrencies
  {
    assert (specs + [spec])[..|specs|] == specs;
  }

  /** The `currencyMap` holding exactly the codes of `codes`, each with its entry. */
  function NamedMap(codes: seq<string>): map<string, NamedCurrency>
  {
    map c | c in codes :: NamedCurrency(c, NameOf(c))
  }

  lemma NamedMapSnoc(codes: seq<string>, x: string)
    ensures NamedMap(codes + [x]) == NamedMap(codes)[x := NamedCurrency(x, NameOf(x))]
  {
    assert forall c :: c in codes + [x] <==> c in codes || c == x;
  }

  /**
   * Fills `currencyMap` from every specification's currencies, adding a code only when the map
   * does not have it yet, and returns the map's values in insertion order. The `Map` is the pair
   * of `currencyMap` (its entries) and `order` (its insertion order).
   */
  method CollectCurrencies(specs: array<CountrySpec>) returns (entries: seq<NamedCurrency>)
    ensures entries == Named(Dedup(AllCodes(specs[..])))
  {
    var currencyMap: map<string, NamedCurrency> := map[];
    var order: seq<string> := [];
    for i := 0 to specs.Length
      invariant order == Dedup(AllCodes(specs[..i]))
      invariant currencyMap == NamedMap(order)
    {
      var supported := specs[i].supportedPaymentCurrencies;
      ghost var target := Extend(order, supported);
      for j := 0 to |supported|
        invariant Extend(order, supported[j..]) == target
        invariant currencyMap == NamedMap(order)
      {
        var currency := supported[j];
        assert supported[j..][1..] == supported[j + 1..];
        if currency !in currencyMap {
          var info := if currency in CurrencyInfo then CurrencyInfo[currency]
                      else Info(Js.ToUpperCase(currency), Js.ToUpperCase(currency));
          NamedMapSnoc(order, currency);
          currencyMap := currencyMap[currency := NamedCurrency(currency, info.name)];
          order := order + [currency];
        }
      }
      ExtendAppend([], AllCodes(specs[..i]), supported);
      AllCodesSnoc(specs[..i], specs[i]);
      assert specs[..i + 1] == specs[..i] + [specs[i]];
    }
    assert specs[..specs.Length] == specs[..];
    entries := seq(|order|, k requires 0 <= k < |order| => currencyMap[order[k]]);
  }

  // ---------------------------------------------------------------------------
  // The comparator (route.ts, popular first, then localeCompare)

  /** `Array.prototype.indexOf`: the first position of `x` in `s`, or -1. */
  function IndexOf(s: seq<string>, x: string): (r: int)
    ensures -1 <= r < |s|
    ensures r == -1 <==> x !in s
    ensures r >= 0 ==> s[r] == x && x !in s[..r]
  {
    if s == [] then -1
    else if s[0] == x then 0
    else
      var r := IndexOf(s[1..], x);
      if r == -1 then -1
      else
        assert s[..r + 1] == [s[0]] + s[1..][..r];
        r + 1
  }

  /** `a.localeCompare(b)` on the lower-case ASCII codes: the sign of their order by code point. */
  function LexCompare(a: string, b: string): (r: int)
    ensures -1 <= r <= 1
    ensures r == 0 <==> a == b
  {
    if a == [] && b == [] then 0
    else if a == [] then -1
    else if b == [] then 1
    else if a[0] < b[0] then -1
    else if a[0] > b[0] then 1
    else
      var r := LexCompare(a[1..], b[1..]);
      assert r == 0 ==> a == [a[0]] + a[1..] == [b[0]] + b[1..] == b;
      r
  }

  lemma {:induction false} LexAntisymmetric(a: string, b: string)
    ensures LexCompare(b, a) == -LexCompare(a, b)
  {
    if a != [] && b != [] && a[0] == b[0] {
      LexAntisymmetric(a[1..], b[1..]);
    }
  }

  lemma {:induction false} LexTransitive(a: string, b: string, c: string)
    requires LexCompare(a, b) < 0 && LexCompare(b, c) < 0
    ensures LexCompare(a, c) < 0
  {
    if a != [] && b != [] && c != [] && a[0] == b[0] && b[0] == c[0] {
      LexTransitive(a[1..], b[1..], c[1..]);
    }
  }

  function PopularIndex(code: string): (r: int)
    ensures -1 <= r < |PopularCurrencies|
    ensures r == -1 <==> code !in PopularCurrencies
    ensures r >= 0 ==> PopularCurrencies[r] == code
  {
    IndexOf(PopularCurrencies, code)
  }

  predicate IsPopular(code: string)
  {
    code in PopularCurrencies
  }

  /** The sort comparator: negative when `a` goes first, positive when `b` does. A popular code
      goes before an unpopular one, two popular codes go in the popular list's order, and two
      unpopular codes alphabetically. */
  function Compare(a: string, b: string): (r: int)
    ensures r < 0 <==>
      || (IsPopular(a) && !IsPopular(b))
      || (IsPopular(a) && IsPopular(b) && PopularIndex(a) < PopularIndex(b))
      || (!IsPopular(a) && !IsPopular(b) && LexCompare(a, b) < 0)
  {
    var aPopular := PopularIndex(a);
    var bPopular := PopularIndex(b);
    if aPopular != -1 && bPopular != -1 then aPopular - bPopular
    else if aPopular != -1 then -1
    else if bPopular != -1 then 1
    else LexCompare(a, b)
  }

  /** The comparator only ties a code with itself. */
  lemma CompareZeroIffEqual(a: string, b: string)
    ensures Compare(a, b) == 0 <==> a == b
  {
  }

  /** Swapping the operands flips the sign. */
  lemma CompareAntisymmetric(a: string, b: string)
    ensures Compare(a, b) < 0 <==> Compare(b, a) > 0
  {
    LexAntisymmetric(a, b);
  }

  /** The comparator is transitive, so with the two lemmas above it is a strict total order on codes. */
  lemma CompareTransitive(a: string, b: string, c: string)
    requires Compare(a, b) < 0 && Compare(b, c) < 0
    ensures Compare(a, c) < 0
  {
    if !IsPopular(a) && !IsPopular(b) && !IsPopular(c) {
      LexTransitive(a, b, c);
    }
  }

  /** The comparator is a strict total order on codes: it ties a code only with itself, swapping the
      operands flips its sign, and it is transitive. */
  lemma CompareIsStrictTotalOrder()
    ensures IsStrictTotalOrder(Compare)
  {
    forall a, b ensures Compare(a, b) == 0 <==> a == b {
      CompareZeroIffEqual(a, b);
    }
    forall a, b ensures Compare(a, b) < 0 <==> Compare(b, a) > 0 {
      CompareAntisymmetric(a, b);
    }
    forall a, b, c | Compare(a, b) < 0 && Compare(b, c) < 0 ensures Compare(a, c) < 0 {
      CompareTransitive(a, b, c);
    }
  }

  // ---------------------------------------------------------------------------
  // Sorting (route.ts, Array.prototype.sort with a comparator)

  /** What `Array.prototype.sort` needs of a comparator for a well-defined result. */
  ghost predicate IsStrictTotalOrder(cmp: (string, string) -> int)
  {
    && (forall a, b :: cmp(a, b) == 0 <==> a == b)
    && (forall a, b :: cmp(a, b) < 0 <==> cmp(b, a) > 0)
    && (forall a, b, c :: cmp(a, b) < 0 && cmp(b, c) < 0 ==> cmp(a, c) < 0)
  }

  /** Every entry goes strictly before every entry after it (so no code repeats). */
  predicate OrderedBy(s: seq<NamedCurrency>, cmp: (string, string) -> int)
  {
    forall i, j :: 0 <= i < j < |s| ==> cmp(s[i].code, s[j].code) < 0
  }

  predicate DistinctCodes(s: seq<NamedCurrency>)
  {
    forall i, j :: 0 <= i < j < |s| ==> s[i].code != s[j].code
  }

  /** Inserts `x` before the first entry that does not go before it. */
  function Insert(x: NamedCurrency, s: seq<NamedCurrency>, cmp: (string, string) -> int): seq<NamedCurrency>
  {
    if s == [] then [x]
    else if cmp(x.code, s[0].code) <= 0 then [x] + s
    else [s[0]] + Insert(x, s[1..], cmp)
  }

  lemma {:induction false} InsertPermutes(x: NamedCurrency, s: seq<NamedCurrency>, cmp: (string, string) -> int)
    ensures multiset(Insert(x, s, cmp)) == multiset(s) + multiset{x}
    ensures forall y :: y in Insert(x, s, cmp) <==> y == x || y in s
  {
    if s != [] && cmp(x.code, s[0].code) > 0 {
      InsertPermutes(x, s[1..], cmp);
      assert s == [s[0]] + s[1..];
    }
  }

  lemma {:induction false} InsertOrdered(x: NamedCurrency, s: seq<NamedCurrency>, cmp: (string, string) -> int)
    requires IsStrictTotalOrder(cmp)
    requires OrderedBy(s, cmp)
    requires forall i :: 0 <= i < |s| ==> s[i].code != x.code
    ensures OrderedBy(Insert(x, s, cmp), cmp)
  {
    if s == [] {
    } else if cmp(x.code, s[0].code) <= 0 {
      assert cmp(x.code, s[0].code) < 0;
      PrependOrdered(x, s, cmp);
    } else {
      InsertOrdered(x, s[1..], cmp);
      assert cmp(s[0].code, x.code) < 0;
      HeadBeforeInserted(x, s, cmp);
      PrependOrdered(s[0], Insert(x, s[1..], cmp), cmp);
    }
  }

  /** An entry that goes before `x` and before the rest of `s` goes before all of `x` inserted there. */
  lemma HeadBeforeInserted(x: NamedCurrency, s: seq<NamedCurrency>, cmp: (string, string) -> int)
    requires OrderedBy(s, cmp)
    requires s != [] && cmp(s[0].code, x.code) < 0
    ensures var rest := Insert(x, s[1..], cmp); forall k :: 0 <= k < |rest| ==> cmp(s[0].code, rest[k].code) < 0
  {
    var rest := Insert(x, s[1..], cmp);
    InsertPermutes(x, s[1..], cmp);
    forall k | 0 <= k < |rest| ensures cmp(s[0].code, rest[k].code) < 0 {
      assert rest[k] in rest;
      if rest[k] != x {
        var m :| 0 <= m < |s[1..]| && s[1..][m] == rest[k];
        assert s[m + 1] == rest[k];
      }
    }
  }

  /** Putting in front an entry that goes before the first keeps the order. */
  lemma PrependOrdered(x: NamedCurrency, s: seq<NamedCurrency>, cmp: (string, string) -> int)
    requires IsStrictTotalOrder(cmp)
    requires OrderedBy(s, cmp)
    requires s != [] ==> cmp(x.code, s[0].code) < 0
    ensures OrderedBy([x] + s, cmp)
  {
    var r := [x] + s;
    forall j | 1 <= j < |r| ensures cmp(x.code, r[j].code) < 0 {
      assert r[j] == s[j - 1];
      if j > 1 {
        assert cmp(x.code, s[0].code) < 0;
        assert cmp(s[0].code, s[j - 1].code) < 0;
      }
    }
    forall i, j | 1 <= i < j < |r| ensures cmp(r[i].code, r[j].code) < 0 {
      assert r[i] == s[i - 1] && r[j] == s[j - 1];
    }
  }

  /** `Array.prototype.sort` with comparator `cmp`, as an insertion sort; `SortedIsUnique` shows
      that every algorithm that sorts gives the same result. */
  function SortBy(s: seq<NamedCurrency>, cmp: (string, string) -> int): seq<NamedCurrency>
  {
    if s == [] then [] else Insert(s[0], SortBy(s[1..], cmp), cmp)
  }

  /** Sorting neither adds nor loses an entry. */
  lemma {:induction false} SortPermutes(s: seq<NamedCurrency>, cmp: (string, string) -> int)
    ensures multiset(SortBy(s, cmp)) == multiset(s)
    ensures forall y :: y in SortBy(s, cmp) <==> y in s
  {
    if s != [] {
      SortPermutes(s[1..], cmp);
      InsertPermutes(s[0], SortBy(s[1..], cmp), cmp);
      assert s == [s[0]] + s[1..];
    }
  }

  /** Entries with distinct codes come out strictly ordered by the comparator. */
  lemma {:induction false} SortOrdered(s: seq<NamedCurrency>, cmp: (string, string) -> int)
    requires IsStrictTotalOrder(cmp)
    requires DistinctCodes(s)
    ensures OrderedBy(SortBy(s, cmp), cmp)
  {
    if s != [] {
      var rest := SortBy(s[1..], cmp);
      SortOrdered(s[1..], cmp);
      SortPermutes(s[1..], cmp);
      forall i | 0 <= i < |rest| ensures rest[i].code != s[0].code {
        assert rest[i] in rest;
        var m :| 0 <= m < |s[1..]| && s[1..][m] == rest[i];
        assert s[m + 1] == rest[i];
      }
      InsertOrdered(s[0], rest, cmp);
    }
  }

  /** No code goes strictly before one that goes strictly before it (in particular not before itself). */
  ghost predicate Asymmetric(cmp: (string, string) -> int)
  {
    forall a, b :: cmp(a, b) < 0 ==> cmp(b, a) >= 0
  }

  lemma StrictTotalOrderIsAsymmetric(cmp: (string, string) -> int)
    requires IsStrictTotalOrder(cmp)
    ensures Asymmetric(cmp)
  {
  }

  /** With equal heads, what follows the head in `a` follows it in `b` too. */
  lemma TailMember(a: seq<NamedCurrency>, b: seq<NamedCurrency>, cmp: (string, string) -> int, y: NamedCurrency)
    requires Asymmetric(cmp)
    requires OrderedBy(a, cmp)
    requires forall z :: z in a <==> z in b
    requires a != [] && b != [] && a[0] == b[0]
    requires y in a[1..]
    ensures y in b[1..]
  {
    var m :| 0 <= m < |a[1..]| && a[1..][m] == y;
    assert a[m + 1] == y;
    assert y in a;
    var n :| 0 <= n < |b| && b[n] == y;
    if n == 0 {
      assert false;
    }
    assert b[1..][n - 1] == y;
  }

  /** Both orderings start with the same entry: neither head can go after the other. */
  lemma SameHead(a: seq<NamedCurrency>, b: seq<NamedCurrency>, cmp: (string, string) -> int)
    requires Asymmetric(cmp)
    requires OrderedBy(a, cmp) && OrderedBy(b, cmp)
    requires forall z :: z in a <==> z in b
    requires a != []
    ensures b != [] && a[0] == b[0]
  {
    assert a[0] in a;
    var p :| 0 <= p < |b| && b[p] == a[0];
    assert b[0] in b;
    var q :| 0 <= q < |a| && a[q] == b[0];
    if p != 0 {
      assert false;
    }
  }

  /** Two arrangements of the same entries that are both strictly ordered are the same sequence:
      the catalogue does not depend on the sorting algorithm the engine uses. */
  lemma {:induction false} SortedIsUnique(a: seq<NamedCurrency>, b: seq<NamedCurrency>, cmp: (string, string) -> int)
    requires Asymmetric(cmp)
    requires OrderedBy(a, cmp) && OrderedBy(b, cmp)
    requires forall y :: y in a <==> y in b
    ensures a == b
  {
    if a == [] {
      if b != [] {
        SameHead(b, a, cmp);
      }
    } else {
      SameHead(a, b, cmp);
      forall y ensures y in a[1..] <==> y in b[1..] {
        if y in a[1..] {
          TailMember(a, b, cmp, y);
        }
        if y in b[1..] {
          TailMember(b, a, cmp, y);
        }
      }
      assert OrderedBy(a[1..], cmp) && OrderedBy(b[1..], cmp);
      SortedIsUnique(a[1..], b[1..], cmp);
      assert a == [a[0]] + a[1..] && b == [b[0]] + b[1..];
    }
  }

  // ---------------------------------------------------------------------------
  // Symbols, the whole catalogue, and the fallback

  /** The `.map` that adds each entry's symbol. */
  function AttachSymbols(s: seq<NamedCurrency>): (r: seq<Currency>)
    ensures |r| == |s|
    ensures forall i :: 0 <= i < |s| ==>
      r[i].code == s[i].code && r[i].name == s[i].name && r[i].symbol == SymbolOf(s[i].code)
  {
    seq(|s|, i requires 0 <= i < |s| => Currency(s[i].code, s[i].name, SymbolOf(s[i].code)))
  }

  /** The catalogue derived from the visited codes. */
  function Catalogue(codes: seq<string>): seq<Currency>
  {
    AttachSymbols(SortBy(Named(Dedup(codes)), Compare))
  }

  function CodesOf(r: seq<Currency>): (cs: seq<string>)
    ensures |cs| == |r| && forall i :: 0 <= i < |r| ==> cs[i] == r[i].code
  {
    seq(|r|, i requires 0 <= i < |r| => r[i].code)
  }

  lemma NamedElements(codes: seq<string>)
    ensures forall y: NamedCurrency :: y in Named(codes) <==> y.code in codes && y.name == NameOf(y.code)
    ensures Distinct(codes) ==> DistinctCodes(Named(codes))
  {
    forall y: NamedCurrency | y.code in codes && y.name == NameOf(y.code) ensures y in Named(codes) {
      var k :| 0 <= k < |codes| && codes[k] == y.code;
      assert Named(codes)[k] == y;
    }
  }

  /** The sorted entries of the catalogue are the entries named after the visited codes, sorted
      without ties. */
  lemma CatalogueEntries(codes: seq<string>)
    ensures var sorted := SortBy(Named(Dedup(codes)), Compare);
      && OrderedBy(sorted, Compare)
      && forall y: NamedCurrency :: y in sorted <==> y.code in codes && y.name == NameOf(y.code)
  {
    DedupIsSet(codes);
    NamedElements(Dedup(codes));
    CompareIsStrictTotalOrder();
    SortPermutes(Named(Dedup(codes)), Compare);
    SortOrdered(Named(Dedup(codes)), Compare);
  }

  /** The catalogue lists every visited code exactly once, adds none, and names each entry and
      gives it a symbol from the table, falling back to the upper-cased code. */
  lemma CatalogueContents(codes: seq<string>)
    ensures forall c :: c in CodesOf(Catalogue(codes)) <==> c in codes
    ensures Distinct(CodesOf(Catalogue(codes)))
    ensures forall i :: 0 <= i < |Catalogue(codes)| ==>
      Catalogue(codes)[i].name == NameOf(Catalogue(codes)[i].code)
      && Catalogue(codes)[i].symbol == SymbolOf(Catalogue(codes)[i].code)
  {
    var sorted := SortBy(Named(Dedup(codes)), Compare);
    CatalogueEntries(codes);
    var r := Catalogue(codes);
    var cs := CodesOf(r);
    forall c ensures c in cs <==> c in codes {
      if c in codes {
        var y := NamedCurrency(c, NameOf(c));
        assert y in sorted;
        var i :| 0 <= i < |sorted| && sorted[i] == y;
        assert cs[i] == c;
      }
      if c in cs {
        var i :| 0 <= i < |cs| && cs[i] == c;
        assert sorted[i] in sorted;
      }
    }
    forall i | 0 <= i < |r| ensures r[i].name == NameOf(r[i].code) {
      assert sorted[i] in sorted;
    }
    forall i, j | 0 <= i < j < |cs| ensures cs[i] != cs[j] {
      CompareZeroIffEqual(sorted[i].code, sorted[j].code);
    }
  }

  /** The catalogue's order: popular codes before all others, popular codes in the order of the
      popular list, the others alphabetically. */
  lemma CatalogueOrder(codes: seq<string>)
    ensures var r := Catalogue(codes);
      forall i, j :: 0 <= i < j < |r| ==>
        && (IsPopular(r[j].code) ==> IsPopular(r[i].code))
        && (IsPopular(r[i].code) && IsPopular(r[j].code) ==> PopularIndex(r[i].code) < PopularIndex(r[j].code))
        && (!IsPopular(r[i].code) && !IsPopular(r[j].code) ==> LexCompare(r[i].code, r[j].code) < 0)
  {
    CatalogueEntries(codes);
  }

  /** The list returned when the provider call fails. */
  const FallbackCurrencies: seq<Currency> := [
    Currency("usd", "US Dollar", "$"),
    Currency("eur", "Euro", "€"),
    Currency("gbp", "British Pound", "£"),
    Currency("jpy", "Japanese Yen", "¥"),
    Currency("cad", "Canadian Dollar", "C$"),
    Currency("aud", "Australian Dollar", "A$"),
    Currency("chf", "Swiss Franc", "CHF"),
    Currency("cny", "Chinese Yuan", "¥")]

  lemma PopularDistinct()
    ensures Distinct(PopularCurrencies)
  {
  }

  lemma PopularIndexIsPosition(i: int)
    requires 0 <= i < |PopularCurrencies|
    ensures PopularIndex(PopularCurrencies[i]) == i
  {
    PopularDistinct();
  }

  /** The popular list, named, is strictly ordered by the comparator. */
  lemma PopularNamedSorted()
    ensures OrderedBy(Named(PopularCurrencies), Compare)
  {
    var named := Named(PopularCurrencies);
    forall i, j | 0 <= i < j < |named| ensures Compare(named[i].code, named[j].code) < 0 {
      PopularIndexIsPosition(i);
      PopularIndexIsPosition(j);
    }
  }

  /** The fallback entries are the popular codes with their table names and symbols. */
  lemma FallbackIsNamedPopular()
    ensures AttachSymbols(Named(PopularCurrencies)) == FallbackCurrencies
  {
    var r := AttachSymbols(Named(PopularCurrencies));
    forall i | 0 <= i < |r| ensures r[i] == FallbackCurrencies[i] {
      FallbackEntry(i);
    }
  }

  /** One fallback entry is the popular code at its position, with its table name and symbol. */
  lemma FallbackEntry(i: int)
    requires 0 <= i < |PopularCurrencies|
    ensures var c := PopularCurrencies[i];
      FallbackCurrencies[i] == Currency(c, NameOf(c), SymbolOf(c))
  {
    if i < 4 {
      PopularEntryLow(i);
    } else {
      PopularEntryHigh(i);
    }
  }

  lemma PopularEntryLow(i: int)
    requires 0 <= i < 4
    ensures var c := PopularCurrencies[i];
      FallbackCurrencies[i] == Currency(c, NameOf(c), SymbolOf(c))
  {
  }

  lemma PopularEntryHigh(i: int)
    requires 4 <= i < 8
    ensures var c := PopularCurrencies[i];
      FallbackCurrencies[i] == Currency(c, NameOf(c), SymbolOf(c))
  {
  }

  /** The fallback list is what the catalogue would be if the specifications listed exactly the
      popular currencies, in any order and with any repeats. */
  lemma FallbackIsPopularCatalogue(codes: seq<string>)
    requires forall c :: c in codes <==> c in PopularCurrencies
    ensures Catalogue(codes) == FallbackCurrencies
  {
    var sorted := SortBy(Named(Dedup(codes)), Compare);
    var popular := Named(PopularCurrencies);
    CatalogueEntries(codes);
    NamedElements(PopularCurrencies);
    PopularNamedSorted();
    FallbackIsNamedPopular();
    CompareIsStrictTotalOrder();
    StrictTotalOrderIsAsymmetric(Compare);
    SortedIsUnique(sorted, popular, Compare);
  }

  // ---------------------------------------------------------------------------
  // The handler

  /**
   * `GET /api/currencies`, given the outcome of the country-specification call: the catalogue of
   * the codes the specifications support, or the fixed list when the call (or anything after it)
   * throws.
   */
  method GetCurrencies(countrySpecs: Result<array<CountrySpec>, Js.Thrown>) returns (currencies: seq<Currency>)
    ensures countrySpecs.Failure? ==> currencies == FallbackCurrencies
    ensures countrySpecs.Success? ==> currencies == Catalogue(AllCodes(countrySpecs.value[..]))
    ensures countrySpecs.Success? ==>
      && (forall c :: c in CodesOf(currencies) <==> c in AllCodes(countrySpecs.value[..]))
      && Distinct(CodesOf(currencies))
  {
    match countrySpecs
    case Failure(_) =>
      currencies := FallbackCurrencies;
    case Success(specs) =>
      var entries := CollectCurrencies(specs);
      var sorted := SortBy(entries, Compare);
      currencies := AttachSymbols(sorted);
      CatalogueContents(AllCodes(specs[..]));
  }
}
