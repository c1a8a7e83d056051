/**
 * The inventory model of inventory_management.js: products (plain and
 * perishable), the batch discount, and the store with its valuation and its
 * lookup by name.
 */
module Inventory {
  import opened Wrappers
  import Text

  /**
   * What distinguishes a PerishableProduct from a plain Product: an expiration
   * date, kept verbatim and never validated.
   */
  datatype Kind = Standard | Perishable(expirationDate: string)

  /** The error the constructor throws. */
  datatype ConstructionError = InvalidArgument(message: string)

  const NegativeArgumentMessage := "Price and quantity must be non-negative"

  /** The text PerishableProduct.toString appends to the base rendering. */
  const ExpirationLabel := ", Expiration Date: "

  /** The fields of a product at one moment, as a value. */
  datatype ProductRecord = ProductRecord(name: string, price: real, quantity: int, kind: Kind)

  class Product {
    const name: string
    var price: real
    var quantity: int
    const kind: Kind

    /** What the constructor guarantees; a discount outside [0, 1] can break it afterwards. */
    predicate Valid()
      reads this
    {
      price >= 0.0 && quantity >= 0
    }

    /** The field assignments of the constructor, reached only once its guard has passed. */
    constructor (name: string, price: real, quantity: int, kind: Kind)
      requires price >= 0.0 && quantity >= 0
      ensures this.name == name && this.price == price && this.quantity == quantity && this.kind == kind
      ensures Valid()
    {
      this.name := name;
      this.price := price;
      this.quantity := quantity;
      this.kind := kind;
    }

    /** Construction with its guard: fails exactly when the price or the quantity is negative. */
    static method Construct(name: string, price: real, quantity: int, kind: Kind)
      returns (r: Result<Product, ConstructionError>)
      ensures r.Failure? <==> price < 0.0 || quantity < 0
      ensures r.Failure? ==> r.error == InvalidArgument(NegativeArgumentMessage)
      ensures r.Success? ==> fresh(r.value) && r.value.Valid()
      ensures r.Success? ==> r.value.Record() == ProductRecord(name, price, quantity, kind)
    {
      if price < 0.0 || quantity < 0 {
        return Failure(InvalidArgument(NegativeArgumentMessage));
      }
      var p := new Product(name, price, quantity, kind);
      return Success(p);
    }

    /** `new Product(name, price, quantity)`. */
    static method Create(name: string, price: real, quantity: int)
      returns (r: Result<Product, ConstructionError>)
      ensures r.Failure? <==> price < 0.0 || quantity < 0
      ensures r.Failure? ==> r.error == InvalidArgument(NegativeArgumentMessage)
      ensures r.Success? ==> fresh(r.value) && r.value.Valid()
      ensures r.Success? ==> r.value.Record() == ProductRecord(name, price, quantity, Standard)
    {
      r := Construct(name, price, quantity, Standard);
    }

    /**
     * `new PerishableProduct(name, price, quantity, expirationDate)`: the same
     * guard as the base constructor, then the date stored as given.
     */
    static method CreatePerishable(name: string, price: real, quantity: int, expirationDate: string)
      returns (r: Result<Product, ConstructionError>)
      ensures r.Failure? <==> price < 0.0 || quantity < 0
      ensures r.Failure? ==> r.error == InvalidArgument(NegativeArgumentMessage)
      ensures r.Success? ==> fresh(r.value) && r.value.Valid()
      ensures r.Success? ==> r.value.Record() == ProductRecord(name, price, quantity, Perishable(expirationDate))
    {
      r := Construct(name, price, quantity, Perishable(expirationDate));
    }

    function Record(): ProductRecord
      reads this
    {
      ProductRecord(name, price, quantity, kind)
    }

    /** `getTotalValue()`: the stock's worth, never negative for a valid product. */
    function TotalValue(): (v: real)
      reads this
      ensures Valid() ==> v >= 0.0
      ensures quantity == 0 || price == 0.0 ==> v == 0.0
    {
      price * quantity as real
    }

    /** `Product.prototype.toString()`. */
    function BaseDescription(): (s: string)
      reads this
      ensures "Product: " + name + ", Price: $" <= s
    {
      var head := "Product: " + name + ", Price: $";
      var tail := Text.ToFixed2(price) + ", Quantity: " + Text.IntToDecimal(quantity);
      PrefixOfAppend(head, tail);
      head + tail
    }

    /**
     * The overridden `toString()`: the base rendering, followed for a perishable
     * product by the expiration label and the date exactly as stored.
     */
    function Description(): (s: string)
      reads this
      ensures BaseDescription() <= s
      ensures kind.Standard? ==> s == BaseDescription()
      ensures kind.Perishable? ==> s[|BaseDescription()|..] == ExpirationLabel + kind.expirationDate
    {
      var base := BaseDescription();
      match kind
      case Standard => base
      case Perishable(date) =>
        PrefixOfAppend(base, ExpirationLabel + date);
        base + (ExpirationLabel + date)
    }

    /**
     * `Product.applyDiscount(products, discount)`: every product's price is
     * multiplied by (1 - discount) once per occurrence in `products`; nothing
     * bounds the discount, and nothing but prices changes.
     */
    static method ApplyDiscount(products: seq<Product>, discount: real)
      modifies set p | p in products
      ensures forall p :: p in products ==> p.price == Discounted(old(p.price), discount, multiset(products)[p])
      ensures forall p :: p in products ==> p.quantity == old(p.quantity)
      ensures Distinct(products) ==>
        forall i :: 0 <= i < |products| ==> products[i].price == DiscountedPrice(old(products[i].price), discount)
      ensures Distinct(products) ==> Prices(products) == DiscountedPrices(old(Prices(products)), discount)
      ensures Quantities(products) == old(Quantities(products))
    {
      for i := 0 to |products|
        invariant forall p :: p in products ==>
          p.price == Discounted(old(p.price), discount, multiset(products[..i])[p])
        invariant forall p :: p in products ==> p.quantity == old(p.quantity)
      {
        var product := products[i];
        ghost var seen := multiset(products[..i]);
        assert multiset(products[..i + 1]) == seen + multiset{product} by {
          assert products[..i + 1] == products[..i] + [product];
        }
        product.price := DiscountedPrice(product.price, discount);
        forall p | p in products
          ensures p.price == Discounted(old(p.price), discount, multiset(products[..i + 1])[p])
        {
          if p == product {
            assert multiset(products[..i + 1])[p] == seen[p] + 1;
          } else {
            assert multiset(products[..i + 1])[p] == seen[p];
          }
        }
      }
      assert products[..|products|] == products;
      if Distinct(products) {
        forall i | 0 <= i < |products| ensures multiset(products)[products[i]] == 1 {
          DistinctOccursOnce(products, i);
        }
      }
    }
  }

  /** A sequence is a prefix of itself followed by anything, and dropping it leaves the rest. */
  lemma PrefixOfAppend<T>(a: seq<T>, b: seq<T>)
    ensures a <= a + b && (a + b)[|a|..] == b
  {
  }

  /** The prices of a sequence of products, in order (`products.map(p => p.price)`). */
  function Prices(ps: seq<Product>): (prices: seq<real>)
    reads ps
    ensures |prices| == |ps| && forall i :: 0 <= i < |ps| ==> prices[i] == ps[i].price
  {
    seq(|ps|, i requires 0 <= i < |ps| reads ps => ps[i].price)
  }

  /** The quantities of a sequence of products, in order. */
  function Quantities(ps: seq<Product>): (quantities: seq<int>)
    reads ps
    ensures |quantities| == |ps| && forall i :: 0 <= i < |ps| ==> quantities[i] == ps[i].quantity
  {
    seq(|ps|, i requires 0 <= i < |ps| reads ps => ps[i].quantity)
  }

  /** No product occurs twice (by reference). */
  predicate Distinct(ps: seq<Product>)
  {
    forall i, j :: 0 <= i < j < |ps| ==> ps[i] != ps[j]
  }

  lemma {:induction false} DistinctOccursOnce(ps: seq<Product>, i: nat)
    requires Distinct(ps) && i < |ps|
    ensures multiset(ps)[ps[i]] == 1
  {
    var n := |ps| - 1;
    assert ps == ps[..n] + [ps[n]];
    if i == n {
      assert ps[i] !in ps[..n];
    } else {
      DistinctOccursOnce(ps[..n], i);
    }
  }

  /** A price after one application of a discount: `price * (1 - discount)`. */
  function DiscountedPrice(price: real, discount: real): real
  {
    price * (1.0 - discount)
  }

  /** Every price after one application of a discount. */
  function DiscountedPrices(prices: seq<real>, discount: real): (r: seq<real>)
    ensures |r| == |prices| && forall i :: 0 <= i < |prices| ==> r[i] == DiscountedPrice(prices[i], discount)
  {
    seq(|prices|, i requires 0 <= i < |prices| => DiscountedPrice(prices[i], discount))
  }

  /** A price after k applications of the same discount. */
  function Discounted(price: real, discount: real, k: nat): real
  {
    if k == 0 then price else DiscountedPrice(Discounted(price, discount, k - 1), discount)
  }

  /** A discount of 0 leaves a price unchanged, however often it is applied. */
  lemma {:induction false} ZeroDiscountIsIdentity(price: real, k: nat)
    ensures Discounted(price, 0.0, k) == price
  {
    if k > 0 {
      ZeroDiscountIsIdentity(price, k - 1);
    }
  }

  /** With 0 <= d <= 1, discounting keeps a non-negative price between 0 and where it was. */
  lemma {:induction false} DiscountKeepsPriceInRange(price: real, d: real, k: nat)
    requires price >= 0.0 && 0.0 <= d <= 1.0
    ensures 0.0 <= Discounted(price, d, k) <= price
  {
    if k > 0 {
      DiscountKeepsPriceInRange(price, d, k - 1);
      var q := Discounted(price, d, k - 1);
      assert 0.0 <= q * (1.0 - d) <= q;
    }
  }

  // ----- The reduce of getInventoryValue -----

  /**
   * `xs.reduce((total, x) => total + x, 0)`: a left fold starting from 0.
   */
  function Sum(xs: seq<real>): real
  {
    if xs == [] then 0.0 else Sum(xs[..|xs| - 1]) + xs[|xs| - 1]
  }

  lemma SumAppend(xs: seq<real>, x: real)
    ensures Sum(xs + [x]) == Sum(xs) + x
  {
    assert (xs + [x])[..|xs|] == xs;
  }

  lemma {:induction false} SumConcat(xs: seq<real>, ys: seq<real>)
    ensures Sum(xs + ys) == Sum(xs) + Sum(ys)
    decreases |ys|
  {
    if ys == [] {
      assert xs + ys == xs;
    } else {
      var n := |ys| - 1;
      assert xs + ys == (xs + ys[..n]) + [ys[n]];
      SumAppend(xs + ys[..n], ys[n]);
      SumConcat(xs, ys[..n]);
    }
  }

  /** A sum of non-negative values is non-negative. */
  lemma {:induction false} SumNonNegative(xs: seq<real>)
    requires forall i :: 0 <= i < |xs| ==> xs[i] >= 0.0
    ensures Sum(xs) >= 0.0
  {
    if xs != [] {
      SumNonNegative(xs[..|xs| - 1]);
    }
  }

  /** Discounting every value by d discounts their sum by d. */
  lemma {:induction false} SumDiscount(xs: seq<real>, ys: seq<real>, d: real)
    requires |ys| == |xs| && forall i :: 0 <= i < |xs| ==> ys[i] == DiscountedPrice(xs[i], d)
    ensures Sum(ys) == DiscountedPrice(Sum(xs), d)
  {
    if xs != [] {
      var n := |xs| - 1;
      SumDiscount(xs[..n], ys[..n], d);
    }
  }

  /** The sum does not depend on the order of the values. */
  lemma {:induction false} SumPermutation(xs: seq<real>, ys: seq<real>)
    requires multiset(xs) == multiset(ys)
    ensures Sum(xs) == Sum(ys)
    decreases |xs|
  {
    if xs == [] {
      assert |multiset(ys)| == 0;
    } else {
      var n := |xs| - 1;
      var j := MatchLast(xs, ys);
      SumPermutation(xs[..n], ys[..j] + ys[j + 1..]);
      SumRemove(ys, j);
    }
  }

  /** Taking the value at j out of a sequence takes it out of the sum. */
  lemma SumRemove(ys: seq<real>, j: nat)
    requires j < |ys|
    ensures Sum(ys) == Sum(ys[..j] + ys[j + 1..]) + ys[j]
  {
    var before, x, after := ys[..j], ys[j], ys[j + 1..];
    assert ys[..j + 1] == before + [x];
    assert ys == ys[..j + 1] + after;
    SumConcat(before + [x], after);
    SumAppend(before, x);
    SumConcat(before, after);
  }

  /**
   * Of two sequences with the same elements, the second holds the first's last
   * element at some j, and what remains of each after removing it still agrees.
   */
  lemma MatchLast<T>(xs: seq<T>, ys: seq<T>) returns (j: nat)
    requires xs != [] && multiset(xs) == multiset(ys)
    ensures j < |ys| && ys[j] == xs[|xs| - 1]
    ensures multiset(xs[..|xs| - 1]) == multiset(ys[..j] + ys[j + 1..])
  {
    var n := |xs| - 1;
    assert xs == xs[..n] + [xs[n]];
    assert xs[n] in multiset(ys);
    j :| 0 <= j < |ys| && ys[j] == xs[n];
    MultisetRemove(ys, j);
    assert multiset(ys[..j] + ys[j + 1..]) == multiset(ys) - multiset{xs[n]};
    assert multiset(xs[..n]) == multiset(xs) - multiset{xs[n]};
  }

  /** The total values of a sequence of products, in order. */
  function TotalValues(ps: seq<Product>): (vs: seq<real>)
    reads ps
    ensures |vs| == |ps| && forall i :: 0 <= i < |ps| ==> vs[i] == ps[i].TotalValue()
  {
    seq(|ps|, i requires 0 <= i < |ps| reads ps => ps[i].TotalValue())
  }

  /**
   * A product whose price was discounted by d at an unchanged quantity is worth
   * (1 - d) times as much. The discount is a plain value, hence `new`.
   */
  twostate lemma DiscountScalesTotalValue(p: Product, new d: real)
    requires p.price == DiscountedPrice(old(p.price), d) && p.quantity == old(p.quantity)
    ensures p.TotalValue() == DiscountedPrice(old(p.TotalValue()), d)
  {
    Reassociate(old(p.price), 1.0 - d, p.quantity as real);
  }

  lemma Reassociate(a: real, f: real, q: real)
    ensures (a * f) * q == f * (a * q)
  {
  }

  /**
   * Between two states in which a store holds the same products, every price
   * was discounted once by d and no quantity changed, the inventory value was
   * scaled by exactly (1 - d). The discount is a plain value, hence `new`:
   * it need not be checked as allocated in the earlier state.
   */
  twostate lemma DiscountScalesInventoryValue(s: Store, new d: real)
    requires s.inventory == old(s.inventory)
    requires forall i :: 0 <= i < |s.inventory| ==> s.inventory[i].price == DiscountedPrice(old(s.inventory[i].price), d)
    requires forall i :: 0 <= i < |s.inventory| ==> s.inventory[i].quantity == old(s.inventory[i].quantity)
    ensures s.InventoryValue() == DiscountedPrice(old(s.InventoryValue()), d)
  {
    var ps := s.inventory;
    ghost var before, after := old(TotalValues(ps)), TotalValues(ps);
    forall i | 0 <= i < |ps|
      ensures after[i] == DiscountedPrice(before[i], d)
    {
      DiscountScalesTotalValue(ps[i], d);
    }
    SumDiscount(before, after, d);
  }

  lemma TotalValuesConcat(ps: seq<Product>, qs: seq<Product>)
    ensures TotalValues(ps + qs) == TotalValues(ps) + TotalValues(qs)
  {
    assert forall i :: 0 <= i < |ps| + |qs| ==>
      TotalValues(ps + qs)[i] == (TotalValues(ps) + TotalValues(qs))[i];
  }

  /** Taking the product at j out takes its total value out of the multiset of values. */
  lemma TotalValuesRemove(qs: seq<Product>, j: nat)
    requires j < |qs|
    ensures multiset(TotalValues(qs)) ==
      multiset(TotalValues(qs[..j] + qs[j + 1..])) + multiset{qs[j].TotalValue()}
  {
    var vs := TotalValues(qs);
    var rest := qs[..j] + qs[j + 1..];
    var ws := vs[..j] + vs[j + 1..];
    assert TotalValues(rest) == ws by {
      forall i | 0 <= i < |rest| ensures TotalValues(rest)[i] == ws[i] {
        if i < j {
          assert rest[i] == qs[i];
        } else {
          assert rest[i] == qs[i + 1];
        }
      }
    }
    MultisetRemove(vs, j);
  }

  lemma MultisetRemove<T>(vs: seq<T>, j: nat)
    requires j < |vs|
    ensures multiset(vs) == multiset(vs[..j] + vs[j + 1..]) + multiset{vs[j]}
  {
    assert vs == vs[..j] + [vs[j]] + vs[j + 1..];
  }

  /** Reordering the products reorders their total values the same way. */
  lemma {:induction false} TotalValuesPermutation(ps: seq<Product>, qs: seq<Product>)
    requires multiset(ps) == multiset(qs)
    ensures multiset(TotalValues(ps)) == multiset(TotalValues(qs))
    decreases |ps|
  {
    if ps == [] {
      assert |multiset(qs)| == 0;
    } else {
      var n := |ps| - 1;
      var j := MatchLast(ps, qs);
      TotalValuesPermutation(ps[..n], qs[..j] + qs[j + 1..]);
      TotalValuesRemove(qs, j);
      TotalValuesRemove(ps, n);
      assert ps[..n] + ps[n + 1..] == ps[..n];
    }
  }

  /**
   * The callback of `find`: the product's lowercased name equals the lowercased
   * query. A product matches its own name, and only names of the query's length match.
   */
  predicate NameMatches(p: Product, query: string)
    ensures p.name == query ==> NameMatches(p, query)
    ensures NameMatches(p, query) ==> |p.name| == |query|
  {
    Text.ToLower(p.name) == Text.ToLower(query)
  }

  /** The index of the first product whose name matches, or |ps| when none does. */
  function FirstMatch(ps: seq<Product>, query: string): (k: nat)
    ensures k <= |ps|
    ensures k < |ps| ==> NameMatches(ps[k], query)
    ensures forall j :: 0 <= j < k ==> !NameMatches(ps[j], query)
  {
    if ps == [] then 0
    else if NameMatches(ps[0], query) then 0
    else 1 + FirstMatch(ps[1..], query)
  }

  /** An index is the first match exactly when its product matches and none before it does. */
  lemma FirstMatchIsUnique(ps: seq<Product>, query: string, k: nat)
    requires k < |ps| && NameMatches(ps[k], query)
    requires forall j :: 0 <= j < k ==> !NameMatches(ps[j], query)
    ensures FirstMatch(ps, query) == k
  {
    var first := FirstMatch(ps, query);
    assert first <= k;
    assert first < |ps| ==> NameMatches(ps[first], query);
  }

  lemma {:induction false} FirstMatchIgnoresCase(ps: seq<Product>, a: string, b: string)
    requires Text.ToLower(a) == Text.ToLower(b)
    ensures FirstMatch(ps, a) == FirstMatch(ps, b)
  {
    if ps != [] {
      FirstMatchIgnoresCase(ps[1..], a, b);
    }
  }

  class Store {
    var inventory: seq<Product>

    /** A new store has an empty inventory. */
    constructor ()
      ensures inventory == []
    {
      inventory := [];
    }

    /**
     * `addProduct(product)`: appends, with no duplicate check; what was there
     * before stays, in order (ValueAfterAdd gives the new inventory value).
     */
    method AddProduct(product: Product)
      modifies this
      ensures inventory == old(inventory) + [product]
    {
      inventory := inventory + [product];
    }

    /** `getInventoryValue()`: the sum of the products' total values, 0 for an empty store. */
    function InventoryValue(): (v: real)
      reads this, inventory
      ensures inventory == [] ==> v == 0.0
      ensures (forall p :: p in inventory ==> p.Valid()) ==> v >= 0.0
    {
      var vs := TotalValues(inventory);
      SumNonNegativeIfValid(inventory);
      Sum(vs)
    }

    /**
     * `findProductByName(name)`: the first product, in insertion order, whose
     * name equals `name` up to ASCII case; None (the source's null) when none does.
     */
    function FindProductByName(name: string): (r: Option<Product>)
      reads this
      ensures r.None? <==> forall p :: p in inventory ==> !NameMatches(p, name)
      ensures r.Some? ==> NameMatches(r.value, name) && r.value in inventory
      ensures r.Some? ==> exists k :: 0 <= k < |inventory| && inventory[k] == r.value &&
                                      forall j :: 0 <= j < k ==> !NameMatches(inventory[j], name)
    {
      var k := FirstMatch(inventory, name);
      if k < |inventory| then Some(inventory[k]) else None
    }
  }

  lemma SumNonNegativeIfValid(ps: seq<Product>)
    ensures (forall p :: p in ps ==> p.Valid()) ==> Sum(TotalValues(ps)) >= 0.0
  {
    if forall p :: p in ps ==> p.Valid() {
      SumNonNegative(TotalValues(ps));
    }
  }

  /** Adding a product raises the inventory value by exactly that product's total value. */
  lemma ValueAfterAdd(ps: seq<Product>, product: Product)
    ensures Sum(TotalValues(ps + [product])) == Sum(TotalValues(ps)) + product.TotalValue()
  {
    TotalValuesConcat(ps, [product]);
    SumAppend(TotalValues(ps), product.TotalValue());
  }

  /** The inventory value does not depend on the order in which the products were added. */
  lemma InventoryValueOrderIndependent(s: Store, t: Store)
    requires multiset(s.inventory) == multiset(t.inventory)
    ensures s.InventoryValue() == t.InventoryValue()
  {
    TotalValuesPermutation(s.inventory, t.inventory);
    SumPermutation(TotalValues(s.inventory), TotalValues(t.inventory));
  }

  /** Queries that differ only in ASCII case find the same product. */
  lemma FindIgnoresCase(s: Store, a: string, b: string)
    requires Text.EqualIgnoringCase(a, b)
    ensures s.FindProductByName(a) == s.FindProductByName(b)
  {
    Text.LowerEqualIffEqualIgnoringCase(a, b);
    FirstMatchIgnoresCase(s.inventory, a, b);
  }
}
