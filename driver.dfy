/**
 * The module-level state of inventory_management.js (`store`, `products`,
 * `originalPrices`) and the three functions that work on it.
 */
module Driver {
  import opened Wrappers
  import opened Inventory
  import Text

  /** The six products `initializeStore` creates, in order. */
  const InitialCatalog: seq<ProductRecord> := [
    ProductRecord("Apple", 2.50, 50, Standard),
    ProductRecord("Banana", 1.75, 100, Standard),
    ProductRecord("Orange", 2.00, 75, Standard),
    ProductRecord("Bread", 3.00, 30, Standard),
    ProductRecord("Milk", 1.50, 10, Perishable("2025-12-31")),
    ProductRecord("Yogurt", 3.00, 20, Perishable("2025-11-30"))
  ]

  /**
   * The price and quantity fields of `InitialCatalog`, in order, written out as
   * lists; `CatalogFields` proves that they agree with `InitialCatalog`.
   */
  const CatalogPrices: seq<real> := [2.50, 1.75, 2.00, 3.00, 1.50, 3.00]
  const CatalogQuantities: seq<int> := [50, 100, 75, 30, 10, 20]

  /** The products carry the initial catalog's names and kinds, in order (these never change). */
  ghost predicate NamedAsCatalog(ps: seq<Product>)
  {
    |ps| == |InitialCatalog| &&
    forall i :: 0 <= i < |ps| ==> ps[i].name == InitialCatalog[i].name && ps[i].kind == InitialCatalog[i].kind
  }

  /** The products hold the initial catalog's fields, in order. */
  ghost predicate HoldsCatalog(ps: seq<Product>)
    reads ps
  {
    NamedAsCatalog(ps) &&
    forall i :: 0 <= i < |ps| ==> ps[i].price == InitialCatalog[i].price && ps[i].quantity == InitialCatalog[i].quantity
  }

  /** Products hold the catalog exactly when they carry its names, kinds, prices and quantities. */
  lemma CatalogFields(ps: seq<Product>)
    ensures HoldsCatalog(ps) <==>
      NamedAsCatalog(ps) && Prices(ps) == CatalogPrices && Quantities(ps) == CatalogQuantities
  {
    if NamedAsCatalog(ps) && Prices(ps) == CatalogPrices && Quantities(ps) == CatalogQuantities {
      assert forall i :: 0 <= i < |ps| ==> ps[i].price == Prices(ps)[i] && ps[i].quantity == Quantities(ps)[i];
    }
  }

  /**
   * Among the catalog's names, "Milk" (in any case) first matches the fifth:
   * the four before it differ from it in length.
   */
  lemma CatalogMilkIsFifth(ps: seq<Product>)
    requires NamedAsCatalog(ps)
    ensures FirstMatch(ps, "Milk") == 4
  {
    assert ps[4].name == "Milk";
    assert forall j :: 0 <= j < 4 ==> |ps[j].name| != |"Milk"|;
    FirstMatchIsUnique(ps, "Milk", 4);
  }

  /** A store holding the catalog's products finds the fifth of them for "Milk". */
  lemma CatalogStoreFindsMilk(s: Store)
    requires NamedAsCatalog(s.inventory)
    ensures s.FindProductByName("Milk") == Some(s.inventory[4])
  {
    CatalogMilkIsFifth(s.inventory);
  }

  /**
   * The six constructions at the start of `initializeStore`, in order. Every
   * price and quantity is non-negative, so none of them throws.
   */
  method NewCatalog() returns (ps: seq<Product>)
    ensures HoldsCatalog(ps) && Distinct(ps)
    ensures forall p :: p in ps ==> fresh(p)
  {
    var apple := Product.Create("Apple", 2.50, 50);
    var banana := Product.Create("Banana", 1.75, 100);
    var orange := Product.Create("Orange", 2.00, 75);
    var bread := Product.Create("Bread", 3.00, 30);
    var milk := Product.CreatePerishable("Milk", 1.50, 10, "2025-12-31");
    var yogurt := Product.CreatePerishable("Yogurt", 3.00, 20, "2025-11-30");
    ps := [apple.value, banana.value, orange.value, bread.value, milk.value, yogurt.value];
    assert forall i :: 0 <= i < |ps| ==> ps[i].Record() == InitialCatalog[i];
  }

  /** The products of the catalog are worth 125 + 175 + 150 + 90 + 15 + 60 = 615. */
  lemma CatalogValue(ps: seq<Product>)
    requires HoldsCatalog(ps)
    ensures Sum(TotalValues(ps)) == 615.0
  {
    var vs := TotalValues(ps);
    assert vs == [125.0, 175.0, 150.0, 90.0, 15.0, 60.0];
    assert vs[..1][..0] == [] && vs[..2][..1] == vs[..1] && vs[..3][..2] == vs[..2];
    assert vs[..4][..3] == vs[..3] && vs[..5][..4] == vs[..4] && vs[..5] == vs[..|vs| - 1];
    assert Sum(vs[..1]) == 125.0 && Sum(vs[..2]) == 300.0 && Sum(vs[..3]) == 450.0;
    assert Sum(vs[..4]) == 540.0 && Sum(vs[..5]) == 555.0;
  }

  /** A store holding the catalog's products is worth 615. */
  lemma CatalogStoreValue(s: Store)
    requires HoldsCatalog(s.inventory)
    ensures s.InventoryValue() == 615.0
  {
    CatalogValue(s.inventory);
  }

  /** The catalog's 615 after a 15% discount is 522.75. */
  lemma CatalogDiscountedValue(before: real, after: real)
    requires before == 615.0 && after == (1.0 - 0.15) * before
    ensures after == 522.75
  {
  }

  /** 615 renders as "615.00". */
  lemma CatalogValueRendered()
    ensures Text.ToFixed2(615.0) == "615.00"
  {
    assert Text.RoundedCents(615.0) == 61500;
    assert Text.NatToDecimal(6) == "6";
    assert Text.NatToDecimal(61) == "61";
    assert Text.NatToDecimal(615) == "615";
    assert Text.NatToDecimal(6150) == "6150";
    assert Text.NatToDecimal(61500) == "61500";
    assert Text.PaddedDigits(61500) == "61500";
  }

  /** 522.75 renders as "522.75". */
  lemma DiscountedCatalogValueRendered()
    ensures Text.ToFixed2(522.75) == "522.75"
  {
    assert Text.RoundedCents(522.75) == 52275;
    assert Text.NatToDecimal(5) == "5";
    assert Text.NatToDecimal(52) == "52";
    assert Text.NatToDecimal(522) == "522";
    assert Text.NatToDecimal(5227) == "5227";
    assert Text.NatToDecimal(52275) == "52275";
    assert Text.PaddedDigits(52275) == "52275";
  }

  /** `console.log(a, b)` for two strings: one line, the two joined by a space. */
  function LogLine(a: string, b: string): string
  {
    a + " " + b
  }

  const InitialValueLabel := "Initial Inventory Value: $"
  const DiscountedValueLabel := "Inventory Value After 15% Discount: $"
  const FoundLabel := "Found Product:"

  /**
   * The three lines `testInventorySystem` writes: each value with two decimals
   * after its label, then the lookup's rendering after "Found Product:".
   */
  function ConsoleLines(initialValue: real, discountedValue: real, foundText: string): seq<string>
  {
    [LogLine(InitialValueLabel, Text.ToFixed2(initialValue)),
     LogLine(DiscountedValueLabel, Text.ToFixed2(discountedValue)),
     LogLine(FoundLabel, foundText)]
  }

  /** For the catalog's values the console shows 615.00 and 522.75. */
  lemma CatalogConsoleLines(foundText: string)
    ensures ConsoleLines(615.0, 522.75, foundText) ==
      [LogLine(InitialValueLabel, "615.00"), LogLine(DiscountedValueLabel, "522.75"), LogLine(FoundLabel, foundText)]
  {
    CatalogValueRendered();
    DiscountedCatalogValueRendered();
  }

  /** `ps.forEach(p => s.addProduct(p))`. */
  method AddEach(s: Store, ps: seq<Product>)
    modifies s
    ensures s.inventory == old(s.inventory) + ps
  {
    for i := 0 to |ps|
      invariant s.inventory == old(s.inventory) + ps[..i]
    {
      s.AddProduct(ps[i]);
      assert ps[..i + 1] == ps[..i] + [ps[i]];
    }
    assert ps[..|ps|] == ps;
  }

  class ModuleState {
    var store: Store?
    var products: seq<Product>
    var originalPrices: seq<real>

    /**
     * What the three functions keep: before initialization everything is empty;
     * afterwards the store holds exactly the tracked products, each once, and a
     * price was remembered for each of them.
     */
    ghost predicate Valid()
      reads this, store
    {
      |originalPrices| == |products|
      && (store == null ==> products == [] && originalPrices == [])
      && (store != null ==> store.inventory == products && Distinct(products))
    }

    /** `let store = null; let products = []; let originalPrices = [];` */
    constructor ()
      ensures Valid()
      ensures store == null && products == [] && originalPrices == []
    {
      store := null;
      products := [];
      originalPrices := [];
    }

    /**
     * `initializeStore()`: only while there is no store, creates the six
     * products, remembers their prices and adds them, in order, to a new store.
     * A second call changes nothing.
     */
    method InitializeStore()
      requires Valid()
      modifies this
      ensures Valid() && store != null
      ensures old(store) != null ==> unchanged(this)
      ensures old(store) != null ==> store.InventoryValue() == old(store.InventoryValue())
      ensures old(store) != null ==> Prices(products) == old(Prices(products)) && Quantities(products) == old(Quantities(products))
      ensures old(store) == null ==> fresh(store) && (forall p :: p in products ==> fresh(p))
      ensures old(store) == null ==> HoldsCatalog(products)
      ensures old(store) == null ==> originalPrices == Prices(products)
    {
      if store == null {
        var tracked := NewCatalog();
        products := tracked;
        originalPrices := Prices(tracked);

        var s := new Store();
        AddEach(s, tracked);
        store := s;
        assert |originalPrices| == |products|;
        assert store.inventory == products && Distinct(products);
      }
    }

    /**
     * `testInventorySystem()`: the inventory value before and after a 15%
     * discount of the tracked products, the result of looking up "Milk", and
     * the three lines the source writes to the console, in order.
     */
    method TestInventorySystem() returns (initialValue: real, discountedValue: real, found: Option<Product>, printed: seq<string>)
      requires Valid()
      modifies this, set p | p in products
      ensures Valid() && store != null
      ensures old(store) != null ==> store == old(store) && products == old(products) && originalPrices == old(originalPrices)
      ensures old(store) != null ==> initialValue == old(store.InventoryValue())
      ensures old(store) != null ==>
        Prices(products) == DiscountedPrices(old(Prices(products)), 0.15) && Quantities(products) == old(Quantities(products))
      ensures old(store) == null ==> |products| == |InitialCatalog| && initialValue == 615.0
      ensures old(store) == null ==> Prices(products) == DiscountedPrices(originalPrices, 0.15)
      ensures discountedValue == (1.0 - 0.15) * initialValue && discountedValue == store.InventoryValue()
      ensures old(store) == null ==> fresh(store) && forall p :: p in products ==> fresh(p)
      ensures found == store.FindProductByName("Milk")
      ensures printed == ConsoleLines(initialValue, discountedValue, if found.Some? then found.value.Description() else "Not found")
      ensures old(store) == null ==> found == Some(products[4]) && NamedAsCatalog(products)
      ensures old(store) == null ==> originalPrices == CatalogPrices && Quantities(products) == CatalogQuantities
      ensures old(store) == null ==> discountedValue == 522.75
    {
      InitializeStore();
      if old(store) == null {
        CatalogStoreValue(store);
        CatalogFields(products);
      }
      label Initialized:
      initialValue := store.InventoryValue();
      var tracked := products;
      Product.ApplyDiscount(tracked, 0.15);
      assert products == tracked && store.inventory == tracked;
      discountedValue := store.InventoryValue();
      DiscountScalesInventoryValue@Initialized(store, 0.15);

      found := store.FindProductByName("Milk");
      if old(store) == null {
        CatalogStoreFindsMilk(store);
      }
      var foundText := if found.Some? then found.value.Description() else "Not found";
      printed := ConsoleLines(initialValue, discountedValue, foundText);
      if old(store) == null {
        CatalogDiscountedValue(initialValue, discountedValue);
      }
    }

    /** `resetDiscount()`: gives every tracked product back the price remembered for it. */
    method ResetDiscount()
      requires Valid()
      modifies set p | p in products
      ensures Valid()
      ensures Prices(products) == originalPrices
      ensures Quantities(products) == old(Quantities(products))
    {
      for i := 0 to |products|
        invariant forall k :: 0 <= k < i ==> products[k].price == originalPrices[k]
        invariant forall p :: p in products ==> p.quantity == old(p.quantity)
      {
        products[i].price := originalPrices[i];
      }
      assert forall i :: 0 <= i < |products| ==> products[i] in products;
    }
  }
}
