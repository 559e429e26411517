# Generic sort and product inventory join, in Dafny

This project models two small pieces of a C# generics demo and proves what they promise.

- **Constrained generic bubble sort** (`generic_sort.dfy`, module `GenericSort`).
  `SortArray<T>.BubbleSort` sorts an array in place for any `T : IComparable<T>`.
  The model's element type is any `T` that holds no references (`T(!new)`), so that the ordering requirement can quantify over all its values.
  `Swap` exchanges two neighbours. `Employee.CompareTo` compares employees by `Name` only.
  The comparison is a parameter `cmp: (T, T) -> int`, read like `CompareTo`.
  The sort requires `cmp(x, y) <= 0` to be a total preorder: total and transitive.
  The model keeps the source's structure: two nested loops over an `array<T>` that swap a pair exactly when `CompareTo > 0`.
  It proves that the result is sorted, is a permutation of the input, and that an already sorted array is left unchanged.
  Index safety of `arr[j]` and `arr[j + 1]` is checked by the verifier on every access.
- **Digital product inventory** (`product_inventory.dfy`, module `ProductInventory`).
  `GetProducts` is a LINQ inner equi-join of products with categories on `p.CategoryId == c.Id`.
  It projects each matching pair into a `ProductViewModel`.
  The model is a pure function over `seq<Product>` and `seq<Category>`.
  For each product in order, it emits one record per matching category, in category order, as LINQ's `Join` does.
  The product and category objects are classes with mutable fields.
  They are built by the generic factory (`FactoryPattern<T, U>.GetInstance`) and filled in by `AddPropertiesToProduct` / `AddPropertiesToCategory`.
  The concrete subclasses (`Movie`, `DigitalBook`, …) become a `kind` tag on the class.
  The program's reference inventory is built the same way, and its query is proved to yield the four expected records.

The string comparison behind `Employee.CompareTo` is a parameter (`nameCompare`), not a fixed ordering.
.NET's `string.CompareTo` is culture-sensitive, so the demo's printed order depends on the environment.

## Model

| member | source | states |
|---|---|---|
| `GenericSort.Swap` | GenricApplicationWithConstraint/Program.cs:105-110 | exchanges exactly `arr[j]` and `arr[j + 1]`, leaves every other index unchanged, and preserves the multiset of elements |
| `GenericSort.BubbleStep` | GenricApplicationWithConstraint/Program.cs:95-99 | the inner loop's compare-and-swap on the array contents, used to specify the loop body; its properties are stated by `BubbleStepKeepsInvariant` |
| `GenericSort.BubbleStepKeepsInvariant` | GenricApplicationWithConstraint/Program.cs:88-99 | one compare-and-maybe-swap step moves the largest element of `arr[..j + 2]` to `j + 1`, and keeps the sorted suffix and the split between prefix and suffix |
| `GenericSort.BubbleStepPermutes` | GenricApplicationWithConstraint/Program.cs:95-99 | for any comparison, one step keeps the multiset of elements, and it changes nothing when the original input was sorted already |
| `GenericSort.PassExtendsSortedSuffix` | GenricApplicationWithConstraint/Program.cs:85-101 | after a pass over `arr[..n - i]` the sorted suffix grows by one position, and every element before it is at most every element in it |
| `GenericSort.BubbleSort` | GenricApplicationWithConstraint/Program.cs:80-102 | for a total-preorder comparison every adjacent pair ends with `CompareTo <= 0`, the array ends as a permutation of its input (same multiset, same length), and an already sorted array (in particular any array of length 0 or 1) is left unchanged |
| `GenericSort.SortedIsOrdered` | GenricApplicationWithConstraint/Program.cs:80-102 | a sorted result is ordered between any two positions `p <= q`, not only between neighbours |
| `GenericSort.SortTwice` | GenricApplicationWithConstraint/Program.cs:80-102 | sorting is idempotent: a second sort leaves the once-sorted array as it was |
| `GenericSort.Employee.CompareTo` | GenricApplicationWithConstraint/Program.cs:57-61 | compares two employees by comparing their names; `CompareToIgnoresId` states that the result does not depend on `Id`, and `EmployeeOrderIsTotalPreorder` that it is a valid sort order whenever the name order is |
| `GenericSort.CompareToIgnoresId` | GenricApplicationWithConstraint/Program.cs:57-61 | changing the ids of both employees does not change the result of the comparison |
| `GenericSort.EqualNamesCompareEqual` | GenricApplicationWithConstraint/Program.cs:57-61 | two employees with equal names compare equal (zero) both ways whenever a string compares equal to itself |
| `GenericSort.EmployeeOrderIsTotalPreorder` | GenricApplicationWithConstraint/Program.cs:50-61 | if the name comparison is a total preorder, so is the employee comparison, which makes `Employee` a valid element type for the sort |
| `GenericSort.SortEmployees` | GenricApplicationWithConstraint/Program.cs:21-33 | sorting the employee array orders it by name and keeps the same employees |
| `ProductInventory.Project` | DigitalProductInventoryApplication/Program.cs:93-99 | the `select new ProductViewModel` projection of a matched pair; `JoinMembership` states that each record's four fields are copies of the product's `Id` and `Title` and the category's `Title` and `Description` |
| `ProductInventory.MatchesFor` | DigitalProductInventoryApplication/Program.cs:92 | the records of one product, one per matching category, in category order; stated by `MatchesForMembership`, `MatchesOfConcat`, `MatchesForUnique` and `MatchesForIsLookup` |
| `ProductInventory.GetProducts` | DigitalProductInventoryApplication/Program.cs:89-100 | the join itself; its properties are stated by `JoinMembership` (membership and field fidelity), `JoinOrder` and `JoinOfConcat` (order), `DropUnmatched` (inner join), `JoinCardinality` and `JoinIsLookupJoin` (equal to an index-lookup join) |
| `ProductInventory.MatchesForMembership` | DigitalProductInventoryApplication/Program.cs:92-99 | the records of one product are exactly the projections of that product with the categories whose `Id` equals its `CategoryId` |
| `ProductInventory.JoinMembership` | DigitalProductInventoryApplication/Program.cs:89-99 | a record is in the join if and only if some product `p` and category `c` with `p.CategoryId == c.Id` give it, with `ProductId == p.Id`, `Title == p.Title`, `Category == c.Title`, `CategoryDescription == c.Description` |
| `ProductInventory.JoinOfEmpty` | DigitalProductInventoryApplication/Program.cs:89-99 | empty products or empty categories give an empty result |
| `ProductInventory.JoinOfConcat` | DigitalProductInventoryApplication/Program.cs:91-92 | the join of concatenated product lists is the concatenation of the joins, so output order follows product order |
| `ProductInventory.MatchesOfConcat` | DigitalProductInventoryApplication/Program.cs:92 | the matches for one product follow category order |
| `ProductInventory.JoinOrder` | DigitalProductInventoryApplication/Program.cs:91-92 | the records of product `i` come after those of all earlier products and before those of all later products |
| `ProductInventory.DropUnmatched` | DigitalProductInventoryApplication/Program.cs:92 | a product whose `CategoryId` matches no category yields no record, and removing it does not change the result (inner join, not left join) |
| `ProductInventory.UnmatchedHasNoRecord` | DigitalProductInventoryApplication/Program.cs:92-95 | when product ids are unique, no record carries the id of a product without a category |
| `ProductInventory.MatchedProducts` | DigitalProductInventoryApplication/Program.cs:92 | the products that have a category, in order: a product is kept if and only if it is in the input and has a category |
| `ProductInventory.MatchesForUnique` | DigitalProductInventoryApplication/Program.cs:92 | when category ids are unique, a product gets exactly one record if it has a category and none otherwise |
| `ProductInventory.JoinCardinality` | DigitalProductInventoryApplication/Program.cs:89-99 | when category ids are unique, the result has one record per product that has a category |
| `ProductInventory.MatchesForIsLookup` | DigitalProductInventoryApplication/Program.cs:92-99 | when category ids are unique, the records of one product are those found by looking its `CategoryId` up in an id index |
| `ProductInventory.JoinIsLookupJoin` | DigitalProductInventoryApplication/Program.cs:89-99 | when category ids are unique, the join equals an index-lookup join: the same records in the same order |
| `ProductInventory.ProductBase.constructor` | DigitalProductInventoryApplication/Program.cs:150-155 | a new product has the given concrete kind and default fields (`Id == 0`, empty `Title`, `CategoryId == 0`) |
| `ProductInventory.CategoryBase.constructor` | DigitalProductInventoryApplication/Program.cs:181-186 | a new category has the given concrete kind and default fields (`Id == 0`, empty `Title` and `Description`) |
| `ProductInventory.GetProductInstance` | DigitalProductInventoryApplication/Program.cs:198-207 | the factory returns a fresh, default-valued product of the requested concrete kind |
| `ProductInventory.GetCategoryInstance` | DigitalProductInventoryApplication/Program.cs:198-207 | the factory returns a fresh, default-valued category of the requested concrete kind |
| `ProductInventory.AddPropertiesToProduct` | DigitalProductInventoryApplication/Program.cs:116-121 | sets exactly `Id`, `Title` and `CategoryId` of the product; the kind and all other objects are unchanged |
| `ProductInventory.AddPropertiesToCategory` | DigitalProductInventoryApplication/Program.cs:106-111 | sets exactly `Id`, `Title` and `Description` of the category; the kind and all other objects are unchanged |
| `ProductInventory.ReferenceJoin` | DigitalProductInventoryApplication/Program.cs:29-69 | on the reference data the join yields four records in product order, each with its category's title and description |
| `ProductInventory.BuildProducts` | DigitalProductInventoryApplication/Program.cs:21-46 | the program's product list holds, in order, Atomic Habits (book), Avengers Endgame and Interstellar (movies), Arijit Singh Hits (music recording) with their ids and category ids |
| `ProductInventory.BuildCategories` | DigitalProductInventoryApplication/Program.cs:53-63 | the program's category list (declared at line 22) holds, in order, Books, Movies and Music with ids 1 to 3 and their descriptions |
| `ProductInventory.QueryInventory` | DigitalProductInventoryApplication/Program.cs:18-69 | querying the built inventory yields exactly the four reference records |

## Left out

- Console output and `Console.ReadKey` in both programs: display only. The model stops at the values that would be printed.
- `GenricBasics/Program.cs` is not part of this model: it is a fixed list of floats with a floating-point raise and no algorithm.
- The concrete order of .NET's culture-sensitive `string.CompareTo`. The name comparison is a parameter, so the demo's printed employee order is not stated.
- The `null` argument case of `Employee.CompareTo`, which throws at run time; employees are values here and are never null.
- `GenericSort.BubbleSort` on a `null` array, which throws at `arr.Length`. Dafny's `array<T>` is never null, so this case is not modelled.
- A `null` element in the array, which throws at `arr[j].CompareTo`. The comparison is a total function on the element type, so this case is not modelled.
- A `null` `Name` on the employee calling `CompareTo`, which throws at `this.Name.CompareTo`. Names are `string` values here and are never null.
- A `null` `Name` on the other employee. `string.CompareTo(null)` returns a positive value rather than throwing. Names are never null here, so this ordering is not modelled.
- `GenericSort.BubbleSort`: the model's element type must hold no references (`T(!new)`), because the order predicates quantify over all values of `T`. The source's `SortArray<T>` accepts any `IComparable<T>`, including classes such as its `Employee`. That is why `Employee` is a datatype here, and why sorting arrays of mutable objects is not modelled.
- `GenericSort.BubbleSort`: requires the comparison to be a total preorder for all its clauses. For any comparison the source still ends with a permutation of its input, because it only swaps. The model does not state that case: without the requirement, the proof's case split on the ordering made it too costly to check.
- `GenericSort.BubbleSort`: stability (equal elements keeping their order) is not stated; it is not promised either.
- The reflection and `new()` constraint mechanics of `FactoryPattern<T, U>`. Only the result is modelled: a fresh default-valued object of the requested class. The generic factory becomes one method per base class, because Dafny has no inheritance without traits.
- The subclass-only fields `Director`, `Producer`, `Author` and `RecordCompany`: nothing reads them. The subclasses themselves become the `kind` tag.
- C# gives an unset `string` property the value `null`. The model uses the empty string for that default.
- LINQ's deferred execution: the join is computed from the field values at the moment of the query. Nothing changes the objects after they are built, so the result is the same.
- C# `int` is 32-bit, but the model uses unbounded integers. Ids are only copied and compared, so no wrap-around can occur.
