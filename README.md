# Inventory management, modelled in Dafny

`inventory_management.js` is a small in-memory inventory. It has three parts:

- **Product** holds a name, a price and a quantity. Its constructor refuses a negative price or quantity.
- **PerishableProduct** adds an expiration date, which is never validated, and appends that date to the product's rendering.
- **Store** keeps its products in insertion order. It sums their worth and finds one by name, ignoring case.

A static `applyDiscount` rewrites the price of every product in a list, in place. The file also has module-level state (`store`, `products`, `originalPrices`) and three functions over it:

- `initializeStore` builds a six-product catalog, once;
- `testInventorySystem` values the store, discounts the tracked products by 15%, values the store again and looks up "Milk", printing a line for each of the three results;
- `resetDiscount` restores the remembered prices.

The model has four modules.

- `Wrappers` defines `Option`, which stands for the source's `null`, and `Result`, which stands for a thrown error.
- `Text` models the JavaScript built-ins the renderings use:
  - ASCII `toLowerCase`;
  - the rendering of an integer in a template literal;
  - `toFixed(2)`, stated on exact reals.
- `Inventory` holds `Product` and `Store` as classes. Their mutable fields are updated by methods with `modifies` clauses.
  - A perishable product is a `Product` whose constant `kind` is `Perishable(date)`.
  - The constructor's guard is modelled by the `Construct`/`Create`/`CreatePerishable` factories, which return a `Result`.
  - `getInventoryValue` is the left fold `Sum` over `TotalValues`.
  - `findProductByName` is the first index `FirstMatch` whose lowercased name equals the lowercased query.
- `Driver` holds the module state as the class `ModuleState`. Its invariant `Valid()` states three things:
  - before initialization everything is empty;
  - afterwards `store.inventory` is exactly `products`, with no reference twice;
  - one price is remembered per product.

The store and the driver's list share the same product objects. So the discount, applied through `products`, changes `store.InventoryValue()`. The contracts of `TestInventorySystem` state this.

## Model

| member | source | states |
|---|---|---|
| Inventory.Product.constructor | inventory_management.js:14-16 | once the guard has passed, the new product holds exactly the given name, price, quantity and kind, and is valid |
| Inventory.Product.Construct | inventory_management.js:10-17 | construction fails exactly when price < 0 or quantity < 0, with the source's message; on success the fresh product's fields equal the arguments and it is valid |
| Inventory.Product.Create | inventory_management.js:10-17 | `new Product(...)`: fails exactly on a negative price or quantity; otherwise a fresh, valid standard product with the given fields |
| Inventory.Product.CreatePerishable | inventory_management.js:57-60 | same guard as the base constructor; on success the expiration date is stored verbatim |
| Inventory.Product.TotalValue | inventory_management.js:23-25 | the stock's worth is non-negative for a valid product and 0 when the price or the quantity is 0 |
| Inventory.Product.BaseDescription | inventory_management.js:31-33 | the rendering starts with "Product: ", the name and ", Price: $" |
| Inventory.Product.Description | inventory_management.js:66-68 | the base rendering is a prefix; a standard product renders exactly as the base; a perishable one continues with ", Expiration Date: " and the stored date |
| Inventory.Product.ApplyDiscount | inventory_management.js:40-44 | each product's price is multiplied by (1 - d) once per occurrence in the list; quantities are unchanged; without duplicates, the prices become exactly the old prices times (1 - d) |
| Inventory.Prices | inventory_management.js:125 | `products.map(p => p.price)`: one price per product, in order |
| Inventory.DiscountedPrices | inventory_management.js:42 | each price times (1 - d), position by position |
| Inventory.ZeroDiscountIsIdentity | inventory_management.js:40-44 | a discount of 0 leaves a price unchanged, however often it is applied |
| Inventory.DiscountKeepsPriceInRange | inventory_management.js:40-44 | for 0 <= d <= 1 a non-negative price stays between 0 and its old value, so discounted products remain valid |
| Inventory.SumNonNegative | inventory_management.js:95 | a fold of non-negative values is non-negative |
| Inventory.SumDiscount | inventory_management.js:95 | when every value is discounted by d, the fold is discounted by d: it becomes (1 - d) times the old fold, for every d |
| Inventory.SumPermutation | inventory_management.js:95 | the fold does not depend on the order of the values |
| Inventory.TotalValues | inventory_management.js:95 | one total value per product, in order |
| Inventory.TotalValuesPermutation | inventory_management.js:95 | reordering the products reorders their total values |
| Inventory.DiscountScalesTotalValue | inventory_management.js:23-25 | a product whose price was discounted once by d at an unchanged quantity is worth (1 - d) times its old worth |
| Inventory.DiscountScalesInventoryValue | inventory_management.js:94-96 | if a store holds the same products, every price was discounted once by d and no quantity changed, the inventory value is (1 - d) times the old value, for every d |
| Inventory.NameMatches | inventory_management.js:104 | the callback of `find`: a product always matches its own name, and only a query of the name's length can match |
| Inventory.FirstMatch | inventory_management.js:104 | `find`: the result is within bounds; a result below the length matches, and nothing before it does |
| Inventory.FirstMatchIsUnique | inventory_management.js:104 | any index that matches, with nothing matching before it, is the one `find` returns |
| Inventory.FirstMatchIgnoresCase | inventory_management.js:104 | queries with equal lowercase forms find the same index |
| Inventory.Store.constructor | inventory_management.js:78-80 | a new store is empty |
| Inventory.Store.AddProduct | inventory_management.js:86-88 | appends the product at the end and keeps everything before it, in order |
| Inventory.Store.InventoryValue | inventory_management.js:94-96 | 0 for an empty store, non-negative when every product is valid |
| Inventory.Store.FindProductByName | inventory_management.js:103-105 | None (null) exactly when no product matches; otherwise a product of the inventory that matches, with no matching product before it |
| Inventory.SumNonNegativeIfValid | inventory_management.js:94-96 | the inventory value of valid products is non-negative |
| Inventory.ValueAfterAdd | inventory_management.js:86-96 | adding a product raises the inventory value by exactly that product's total value |
| Inventory.InventoryValueOrderIndependent | inventory_management.js:94-96 | two stores holding the same products in any order have the same inventory value |
| Inventory.FindIgnoresCase | inventory_management.js:103-105 | queries equal up to ASCII case ("milk", "MILK", "Milk") find the same product |
| Text.LowerChar | inventory_management.js:104 | lowercases an ASCII capital by 32 code points and leaves every other character alone |
| Text.ToLower | inventory_management.js:104 | same length, each character lowercased |
| Text.LowerEqualIffEqualIgnoringCase | inventory_management.js:104 | lowercased strings are equal exactly when the strings agree position by position up to case |
| Text.NatToDecimal | inventory_management.js:32 | a non-empty digit string without a leading zero |
| Text.NatToDecimalRoundTrip | inventory_management.js:32 | reading back a rendered natural number gives that number |
| Text.IntToDecimal | inventory_management.js:32 | a leading '-' exactly for negative integers, then one or more digits that denote the magnitude (so 0 is "0"), with no leading zero |
| Text.RoundedCents | inventory_management.js:32 | the number of hundredths closest to the value, the larger one on a tie |
| Text.PaddedDigits | inventory_management.js:32 | at least three digits denoting n, with no leading zero beyond that padding |
| Text.CentsToFixed | inventory_management.js:32 | digits with a '.' before the last two, which denote the given hundredths; only a rendering of the form "0.xx" starts with a zero |
| Text.ToFixed2 | inventory_management.js:32 | `toFixed(2)`: a leading '-' exactly for negative values, then two fractional digits denoting the rounded magnitude, with no leading zero before a multi-digit integer part |
| Driver.NewCatalog | inventory_management.js:117-124 | six guarded constructions, none of which fails; six fresh, distinct products holding the catalog's names, prices, quantities and kinds, in order |
| Driver.CatalogValue | inventory_management.js:117-124 | the catalog's products are worth 125 + 175 + 150 + 90 + 15 + 60 = 615 |
| Driver.CatalogStoreValue | inventory_management.js:127-128 | a store holding the catalog's products has inventory value 615 |
| Driver.CatalogMilkIsFifth | inventory_management.js:144 | among the catalog's names, "Milk" first matches the fifth product |
| Driver.CatalogFields | inventory_management.js:117-125 | products hold the catalog exactly when they carry its names and kinds, the prices 2.50, 1.75, 2.00, 3.00, 1.50, 3.00 and the quantities 50, 100, 75, 30, 10, 20 |
| Driver.CatalogStoreFindsMilk | inventory_management.js:144 | a store holding the catalog's products finds the fifth one for "Milk" |
| Driver.CatalogValueRendered | inventory_management.js:138 | `(615).toFixed(2)` is "615.00" |
| Driver.DiscountedCatalogValueRendered | inventory_management.js:142 | `(522.75).toFixed(2)` is "522.75" |
| Driver.CatalogConsoleLines | inventory_management.js:138-145 | for the catalog's two values the console reads "Initial Inventory Value: $ 615.00" and "Inventory Value After 15% Discount: $ 522.75", then "Found Product:" and the lookup's rendering |
| Driver.AddEach | inventory_management.js:128 | `forEach(addProduct)`: the inventory becomes the old one followed by the products, in order |
| Driver.ModuleState.constructor | inventory_management.js:111-113 | no store, no products and no remembered prices |
| Driver.ModuleState.InitializeStore | inventory_management.js:115-130 | keeps `Valid()`; with a store already present changes nothing; otherwise a fresh store holds the fresh catalog products, `products` is that list and the remembered prices are its prices |
| Driver.ModuleState.TestInventorySystem | inventory_management.js:135-146 | keeps `Valid()` and initializes; the tracked prices become the old ones times 0.85 and quantities stay; the second value is the store's value after the discount and 0.85 times the first; from a fresh start the store and every tracked product are newly allocated, the remembered prices and the quantities are the catalog's, the values are 615 and 522.75 and the lookup finds the Milk product; the three printed lines are the two values with two decimals after their labels, then "Found Product:" and the found product's description, or "Not found" (with prices rendered from exact reals, see `Text.ToFixed2` under "## Left out") |
| Driver.ModuleState.ResetDiscount | inventory_management.js:148-152 | keeps `Valid()`; the tracked products' prices become exactly the remembered prices; their quantities are unchanged |

## Left out

- `console.log` is not performed. `TestInventorySystem` returns the three lines it would write, as `ConsoleLines`, next to the two values and the lookup result. `console.log(a, b)` is modelled as `a`, one space, then `b`.
- Text.ToFixed2: values are exact reals, not IEEE-754 doubles. For example, 1.275 renders as "1.28" here, while JavaScript's binary double prints "1.27". The scenario's own lookup is such a case: Milk's discounted price is exactly 1.275 here, so the model's third printed line shows "Price: $1.28", while the program prints "Price: $1.27". The exponent form JavaScript uses for magnitudes of 1e21 and more is not modelled.
- Text.IntToDecimal: renders every integer in plain digits. The exponent form for magnitudes of 1e21 and more is not modelled.
- Inventory.Product.ApplyDiscount, Inventory.Store.InventoryValue: prices, products and sums are computed on exact reals, with no floating-point rounding.
- Text.ToLower: lowercases ASCII letters only. Unicode case mapping is not modelled.
- JavaScript's dynamic typing is not modelled: names are strings, prices are reals, quantities are integers.
- `PerishableProduct` is not a subclass. It is a `Product` whose `kind` carries the expiration date, and `Description` dispatches on that kind.
- `initializeStore`'s six constructions are the method `NewCatalog`, which goes through the guarded `Create` and `CreatePerishable`, and its `forEach(addProduct)` is `AddEach`. Both are called from `InitializeStore`.
- `Product.constructor` requires the guard. The guard itself and the throw are modelled by `Construct`, which returns a `Failure` in place of the exception.
