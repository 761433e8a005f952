/**
  The writer's product pool: two parallel arrays, filled once.  Product names and prices are drawn
  at random by the program; here they are arguments.
*/
module Catalog {
  import opened Orders

  const CATEGORIES: seq<string> := [
    "Electronics", "Home & Kitchen", "Books", "Clothing", "Toys & Games",
    "Sports & Outdoors", "Beauty", "Grocery", "Office", "Garden"]

  // --- SKU-%06d ---

  function Decimal(n: nat): (s: string)
    ensures |s| >= 1
  {
    if n < 10 then [Digit(n)] else Decimal(n / 10) + [Digit(n % 10)]
  }

  function Zeros(n: int): string {
    if n <= 0 then "" else "0" + Zeros(n - 1)
  }

  /** Padded with zeros to at least six digits. */
  function Padded(i: nat): string {
    Zeros(6 - |Decimal(i)|) + Decimal(i)
  }

  function SkuName(i: nat): string {
    "SKU-" + Padded(i)
  }

  predicate AllDigits(s: string) {
    forall i | 0 <= i < |s| :: '0' <= s[i] <= '9'
  }

  /** Reading digits back as a number. */
  function Value(s: string): int
    requires AllDigits(s)
  {
    if s == "" then 0 else 10 * Value(s[..|s| - 1]) + (s[|s| - 1] as int - '0' as int)
  }

  lemma {:induction false} ValueOfDecimal(n: nat)
    ensures AllDigits(Decimal(n)) && Value(Decimal(n)) == n
  {
    if n >= 10 {
      ValueOfDecimal(n / 10);
      var s := Decimal(n);
      assert s[..|s| - 1] == Decimal(n / 10);
    }
  }

  lemma {:induction false} ValueOfPadded(n: int, s: string)
    requires AllDigits(s)
    ensures AllDigits(Zeros(n) + s) && Value(Zeros(n) + s) == Value(s)
  {
    if n <= 0 {
      assert Zeros(n) + s == s;
    } else {
      ValueOfPadded(n - 1, s);
      var t := Zeros(n - 1) + s;
      assert Zeros(n) + s == "0" + t;
      LeadingZero(t);
    }
  }

  lemma {:induction false} LeadingZero(s: string)
    requires AllDigits(s)
    ensures AllDigits("0" + s) && Value("0" + s) == Value(s)
  {
    if s != "" {
      var n := |s| - 1;
      LeadingZero(s[..n]);
      assert ("0" + s)[..|s|] == "0" + s[..n];
    } else {
      assert "0" + s == "0" && "0"[..0] == "";
    }
  }

  /** SKUs are distinct, non-empty and free of the bar that separates pair keys. */
  lemma SkuNames(i: nat, j: nat)
    ensures SkuName(i) == SkuName(j) ==> i == j
    ensures SkuName(i) != "" && '|' !in SkuName(i)
  {
    hide Padded, Value;
    ValueOfName(i);
    ValueOfName(j);
    assert SkuName(i)[4..] == Padded(i) && SkuName(j)[4..] == Padded(j);
  }

  /** A SKU reads "SKU-" and the number in decimal, with leading zeros up to six digits and none beyond. */
  lemma SkuNameIs(i: nat)
    ensures var s := SkuName(i);
            && |s| >= 10 && s[..4] == "SKU-" && AllDigits(s[4..]) && Value(s[4..]) == i
            && (|s| > 10 ==> s[4] != '0')
  {
    hide Value;
    ValueOfName(i);
    DecimalStarts(i);
    ZerosAre(6 - |Decimal(i)|);
    assert SkuName(i)[4..] == Padded(i);
  }

  lemma {:induction false} DecimalStarts(n: nat)
    ensures n > 0 ==> Decimal(n)[0] != '0'
  {
    if n >= 10 {
      DecimalStarts(n / 10);
    }
  }

  lemma {:induction false} ZerosAre(n: int)
    ensures |Zeros(n)| == if n <= 0 then 0 else n
  {
    if n > 0 {
      ZerosAre(n - 1);
    }
  }

  lemma ValueOfName(i: nat)
    ensures AllDigits(Padded(i)) && Value(Padded(i)) == i
  {
    ValueOfDecimal(i);
    ValueOfPadded(6 - |Decimal(i)|, Decimal(i));
  }

  // --- the arrays ---

  /** The contents of a catalog. */
  datatype Pool = Pool(products: seq<Product>, prices: seq<int>) {
    ghost predicate WellFormed() {
      && |products| == |prices| > 0
      && forall i | 0 <= i < |products| ::
           && products[i].sku == SkuName(i)
           && products[i].category == CATEGORIES[i % 10]
           && 199 <= prices[i] <= 49_999
    }
  }

  class Catalog {
    const products: array<Product>
    const priceCents: array<int>

    ghost function Contents(): Pool
      reads this, products, priceCents
    {
      Pool(products[..], priceCents[..])
    }

    constructor (size: int, productName: nat -> string, price: nat -> int)
      requires forall i :: 199 <= price(i) <= 49_999
      ensures fresh(products) && fresh(priceCents) && priceCents.Length == products.Length
      ensures products.Length == if size <= 0 then 500 else size
      ensures Contents().WellFormed()
      ensures forall i | 0 <= i < products.Length ::
                && products[i].sku == SkuName(i) && products[i].name == productName(i) && priceCents[i] == price(i)
                && products[i].category
                   == ["Electronics", "Home & Kitchen", "Books", "Clothing", "Toys & Games",
                       "Sports & Outdoors", "Beauty", "Grocery", "Office", "Garden"][i % 10]
    {
      var n := if size <= 0 then 500 else size;
      products := new Product[n];
      priceCents := new int[n];
      new;
      for i := 0 to n
        invariant forall k | 0 <= k < i ::
                    && products[k] == Product(SkuName(k), productName(k), CATEGORIES[k % 10])
                    && priceCents[k] == price(k)
      {
        var cat := CATEGORIES[i % |CATEGORIES|];
        products[i] := Product(SkuName(i), productName(i), cat);
        priceCents[i] := price(i);
      }
    }

    /** A product and its price, for a drawn index. */
    method Pick(i: nat) returns (product: Product, price: int)
      requires i < products.Length == priceCents.Length
      ensures i < |Contents().products| == |Contents().prices|
      ensures product == Contents().products[i] && price == Contents().prices[i]
    {
      product, price := products[i], priceCents[i];
    }
  }
}
