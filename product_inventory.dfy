/**
  The digital product inventory: products and categories built through a
  generic factory and two field-setting helpers, and `GetProducts`, the
  inner equi-join of products with categories on `CategoryId == Id`,
  projected into flat `ProductViewModel` records.
 */
module ProductInventory {

  // ---------------------------------------------------------------------
  // Values: the fields the join reads and the record it produces
  // ---------------------------------------------------------------------

  /** The `ProductBase` fields: `Id`, `Title` and the foreign key `CategoryId`. */
  datatype Product = Product(id: int, title: string, categoryId: int)

  /** The `CategoryBase` fields: `Id`, `Title`, `Description`. */
  datatype Category = Category(id: int, title: string, description: string)

  /** The flattened record the join produces. */
  datatype ProductViewModel = ProductViewModel(productId: int, title: string, category: string, categoryDescription: string)

  /** The `select new ProductViewModel { … }` projection of a matched pair. */
  function Project(p: Product, c: Category): ProductViewModel {
    ProductViewModel(p.id, p.title, c.title, c.description)
  }

  /** The records produced for one product: one per category whose `Id` equals its `CategoryId`, in category order. */
  function MatchesFor(p: Product, categories: seq<Category>): seq<ProductViewModel> {
    if categories == [] then []
    else (if p.categoryId == categories[0].id then [Project(p, categories[0])] else [])
         + MatchesFor(p, categories[1..])
  }

  /**
    `from p in products join c in categories on p.CategoryId equals c.Id
    select new ProductViewModel { … }`: for each product in order, the
    records of its matching categories in order.
   */
  function GetProducts(products: seq<Product>, categories: seq<Category>): seq<ProductViewModel> {
    if products == [] then []
    else MatchesFor(products[0], categories) + GetProducts(products[1..], categories)
  }

  // ---------------------------------------------------------------------
  // What the join promises
  // ---------------------------------------------------------------------

  /** `p` has a category: some category's `Id` equals `p.CategoryId`. */
  predicate HasCategory(p: Product, categories: seq<Category>) {
    exists k :: 0 <= k < |categories| && categories[k].id == p.categoryId
  }

  /** No two categories share an `Id`. */
  ghost predicate UniqueIds(categories: seq<Category>) {
    forall k1, k2 :: 0 <= k1 < k2 < |categories| ==> categories[k1].id != categories[k2].id
  }

  /** No two products share an `Id`. */
  ghost predicate UniqueProductIds(products: seq<Product>) {
    forall i1, i2 :: 0 <= i1 < i2 < |products| ==> products[i1].id != products[i2].id
  }

  /** `r` is the record for the matching pair `p`, `c`: its four fields are copies of theirs. */
  ghost predicate JoinedFrom(r: ProductViewModel, p: Product, c: Category) {
    && p.categoryId == c.id
    && r.productId == p.id
    && r.title == p.title
    && r.category == c.title
    && r.categoryDescription == c.description
  }

  /** The products that have a category, in their original order. */
  function MatchedProducts(products: seq<Product>, categories: seq<Category>): (r: seq<Product>)
    ensures |r| <= |products|
    ensures forall p :: p in r <==> p in products && HasCategory(p, categories)
  {
    if products == [] then []
    else (if HasCategory(products[0], categories) then [products[0]] else [])
         + MatchedProducts(products[1..], categories)
  }

  lemma {:induction false} MatchesForMembership(p: Product, categories: seq<Category>, r: ProductViewModel)
    ensures r in MatchesFor(p, categories) <==> exists k :: 0 <= k < |categories| && JoinedFrom(r, p, categories[k])
    decreases |categories|
  {
    if categories != [] {
      var rest := categories[1..];
      MatchesForMembership(p, rest, r);
      if r in MatchesFor(p, categories) {
        if p.categoryId == categories[0].id && r == Project(p, categories[0]) {
          assert JoinedFrom(r, p, categories[0]);
        } else {
          var k :| 0 <= k < |rest| && JoinedFrom(r, p, rest[k]);
          assert categories[k + 1] == rest[k];
        }
      }
      if exists k :: 0 <= k < |categories| && JoinedFrom(r, p, categories[k]) {
        var k :| 0 <= k < |categories| && JoinedFrom(r, p, categories[k]);
        if k > 0 {
          assert rest[k - 1] == categories[k];
        } else {
          assert r == Project(p, categories[0]);
        }
      }
    }
  }

  /**
    Membership and field fidelity, both directions: a record is in the join
    exactly when it is the projection of some product and some category
    with `p.CategoryId == c.Id`.
   */
  lemma {:induction false} JoinMembership(products: seq<Product>, categories: seq<Category>, r: ProductViewModel)
    ensures r in GetProducts(products, categories) <==>
            exists i, k :: 0 <= i < |products| && 0 <= k < |categories| && JoinedFrom(r, products[i], categories[k])
    decreases |products|
  {
    if products != [] {
      var rest := products[1..];
      JoinMembership(rest, categories, r);
      MatchesForMembership(products[0], categories, r);
      if r in GetProducts(products, categories) {
        if r in MatchesFor(products[0], categories) {
          var k :| 0 <= k < |categories| && JoinedFrom(r, products[0], categories[k]);
        } else {
          var i, k :| 0 <= i < |rest| && 0 <= k < |categories| && JoinedFrom(r, rest[i], categories[k]);
          assert products[i + 1] == rest[i];
        }
      }
      if exists i, k :: 0 <= i < |products| && 0 <= k < |categories| && JoinedFrom(r, products[i], categories[k]) {
        var i, k :| 0 <= i < |products| && 0 <= k < |categories| && JoinedFrom(r, products[i], categories[k]);
        if i > 0 {
          assert rest[i - 1] == products[i];
        }
      }
    }
  }

  /** Empty products or empty categories give an empty result. */
  lemma {:induction false} JoinOfEmpty(products: seq<Product>, categories: seq<Category>)
    ensures GetProducts([], categories) == []
    ensures GetProducts(products, []) == []
    decreases |products|
  {
    if products != [] {
      JoinOfEmpty(products[1..], categories);
    }
  }

  /** The join distributes over concatenation of the products: output order follows product order. */
  lemma {:induction false} JoinOfConcat(ps1: seq<Product>, ps2: seq<Product>, categories: seq<Category>)
    ensures GetProducts(ps1 + ps2, categories) == GetProducts(ps1, categories) + GetProducts(ps2, categories)
    decreases |ps1|
  {
    if ps1 != [] {
      assert (ps1 + ps2)[0] == ps1[0];
      assert (ps1 + ps2)[1..] == ps1[1..] + ps2;
      JoinOfConcat(ps1[1..], ps2, categories);
      var head := MatchesFor(ps1[0], categories);
      assert head + (GetProducts(ps1[1..], categories) + GetProducts(ps2, categories))
          == (head + GetProducts(ps1[1..], categories)) + GetProducts(ps2, categories);
    } else {
      assert ps1 + ps2 == ps2;
    }
  }

  /** The matches for one product distribute over concatenation of the categories: they come in category order. */
  lemma {:induction false} MatchesOfConcat(p: Product, cs1: seq<Category>, cs2: seq<Category>)
    ensures MatchesFor(p, cs1 + cs2) == MatchesFor(p, cs1) + MatchesFor(p, cs2)
    decreases |cs1|
  {
    if cs1 != [] {
      assert (cs1 + cs2)[0] == cs1[0];
      assert (cs1 + cs2)[1..] == cs1[1..] + cs2;
      MatchesOfConcat(p, cs1[1..], cs2);
      var head := if p.categoryId == cs1[0].id then [Project(p, cs1[0])] else [];
      assert head + (MatchesFor(p, cs1[1..]) + MatchesFor(p, cs2))
          == (head + MatchesFor(p, cs1[1..])) + MatchesFor(p, cs2);
    } else {
      assert cs1 + cs2 == cs2;
    }
  }

  /**
    Order: the records of product `i` come after those of every earlier
    product and before those of every later one.
   */
  lemma JoinOrder(products: seq<Product>, categories: seq<Category>, i: int)
    requires 0 <= i < |products|
    ensures GetProducts(products, categories) ==
            GetProducts(products[..i], categories) + MatchesFor(products[i], categories) + GetProducts(products[i + 1..], categories)
  {
    assert products == products[..i] + ([products[i]] + products[i + 1..]);
    JoinOfConcat(products[..i], [products[i]] + products[i + 1..], categories);
    JoinOfConcat([products[i]], products[i + 1..], categories);
    assert GetProducts([products[i]], categories) == MatchesFor(products[i], categories) + GetProducts([], categories);
  }

  /** A product without a matching category yields no record: removing it leaves the result as it was. */
  lemma DropUnmatched(products: seq<Product>, categories: seq<Category>, i: int)
    requires 0 <= i < |products|
    requires !HasCategory(products[i], categories)
    ensures MatchesFor(products[i], categories) == []
    ensures GetProducts(products, categories) == GetProducts(products[..i] + products[i + 1..], categories)
  {
    if MatchesFor(products[i], categories) != [] {
      MatchesForMembership(products[i], categories, MatchesFor(products[i], categories)[0]);
      assert false;
    }
    JoinOrder(products, categories, i);
    JoinOfConcat(products[..i], products[i + 1..], categories);
  }

  /** With unique product ids, no record carries the id of a product without a category: inner join, not left join. */
  lemma UnmatchedHasNoRecord(products: seq<Product>, categories: seq<Category>, i: int)
    requires UniqueProductIds(products)
    requires 0 <= i < |products|
    requires !HasCategory(products[i], categories)
    ensures forall r :: r in GetProducts(products, categories) ==> r.productId != products[i].id
  {
    forall r | r in GetProducts(products, categories) ensures r.productId != products[i].id {
      JoinMembership(products, categories, r);
      var i', k :| 0 <= i' < |products| && 0 <= k < |categories| && JoinedFrom(r, products[i'], categories[k]);
      assert i' != i;
    }
  }

  /** With unique category ids, a product has one record if it has a category and none otherwise. */
  lemma {:induction false} MatchesForUnique(p: Product, categories: seq<Category>)
    requires UniqueIds(categories)
    ensures |MatchesFor(p, categories)| == if HasCategory(p, categories) then 1 else 0
    decreases |categories|
  {
    if categories != [] {
      var rest := categories[1..];
      MatchesForUnique(p, rest);
      forall k | 0 <= k < |rest| ensures rest[k].id != categories[0].id {
        assert rest[k] == categories[k + 1];
      }
      if HasCategory(p, rest) {
        var k :| 0 <= k < |rest| && rest[k].id == p.categoryId;
        assert categories[k + 1] == rest[k];
      } else {
        forall k | 0 < k < |categories| ensures categories[k].id != p.categoryId {
          assert categories[k] == rest[k - 1];
        }
      }
    }
  }

  /**
    Cardinality: with unique category ids the join has exactly one record
    per product that has a category.
   */
  lemma {:induction false} JoinCardinality(products: seq<Product>, categories: seq<Category>)
    requires UniqueIds(categories)
    ensures |GetProducts(products, categories)| == |MatchedProducts(products, categories)|
    decreases |products|
  {
    if products != [] {
      MatchesForUnique(products[0], categories);
      JoinCardinality(products[1..], categories);
    }
  }

  // ---------------------------------------------------------------------
  // An independent reference: the join as a lookup in an id index
  // ---------------------------------------------------------------------

  /** An index from category id to category (the first category with that id wins). */
  function CategoryIndex(categories: seq<Category>): (index: map<int, Category>)
    ensures forall id :: id in index <==> exists k :: 0 <= k < |categories| && categories[k].id == id
  {
    if categories == [] then map[]
    else CategoryIndex(categories[1..])[categories[0].id := categories[0]]
  }

  /** The join done by looking each product's `CategoryId` up in an index. */
  function LookupJoin(products: seq<Product>, index: map<int, Category>): seq<ProductViewModel> {
    if products == [] then []
    else (if products[0].categoryId in index then [Project(products[0], index[products[0].categoryId])] else [])
         + LookupJoin(products[1..], index)
  }

  lemma {:induction false} MatchesForIsLookup(p: Product, categories: seq<Category>)
    requires UniqueIds(categories)
    ensures var index := CategoryIndex(categories);
            MatchesFor(p, categories) ==
            if p.categoryId in index then [Project(p, index[p.categoryId])] else []
    decreases |categories|
  {
    if categories != [] {
      var rest := categories[1..];
      MatchesForIsLookup(p, rest);
      forall k | 0 <= k < |rest| ensures rest[k].id != categories[0].id {
        assert rest[k] == categories[k + 1];
      }
    }
  }

  /**
    With unique category ids the nested-loop join and the index lookup give
    the same records in the same order.
   */
  lemma {:induction false} JoinIsLookupJoin(products: seq<Product>, categories: seq<Category>)
    requires UniqueIds(categories)
    ensures GetProducts(products, categories) == LookupJoin(products, CategoryIndex(categories))
    decreases |products|
  {
    if products != [] {
      MatchesForIsLookup(products[0], categories);
      JoinIsLookupJoin(products[1..], categories);
    }
  }

  // ---------------------------------------------------------------------
  // Objects: the product and category classes, the factory, the helpers
  // ---------------------------------------------------------------------

  /** The concrete product classes deriving from `ProductBase`. */
  datatype ProductKind = DigitalBook | Movie | MusicRecording

  /** The concrete category classes deriving from `CategoryBase`. */
  datatype CategoryKind = DigitalBookCategory | MovieCategory | MusicCategory

  /** A product object; `kind` is the concrete class it was created as. */
  class ProductBase {
    const kind: ProductKind
    var id: int
    var title: string
    var categoryId: int

    /** `new T()`: every field at its default value. */
    constructor (kind: ProductKind)
      ensures this.kind == kind && Value() == Product(0, "", 0)
    {
      this.kind := kind;
      id, title, categoryId := 0, "", 0;
    }

    /** The current field values, as the join reads them. */
    function Value(): Product
      reads this
    {
      Product(id, title, categoryId)
    }
  }

  /** A category object; `kind` is the concrete class it was created as. */
  class CategoryBase {
    const kind: CategoryKind
    var id: int
    var title: string
    var description: string

    /** `new T()`: every field at its default value. */
    constructor (kind: CategoryKind)
      ensures this.kind == kind && Value() == Category(0, "", "")
    {
      this.kind := kind;
      id, title, description := 0, "", "";
    }

    /** The current field values, as the join reads them. */
    function Value(): Category
      reads this
    {
      Category(id, title, description)
    }
  }

  /** `FactoryPattern<T, ProductBase>.GetInstance()`: a fresh, default-valued product of class `kind`. */
  method GetProductInstance(kind: ProductKind) returns (product: ProductBase)
    ensures fresh(product)
    ensures product.kind == kind && product.Value() == Product(0, "", 0)
  {
    product := new ProductBase(kind);
  }

  /** `FactoryPattern<T, CategoryBase>.GetInstance()`: a fresh, default-valued category of class `kind`. */
  method GetCategoryInstance(kind: CategoryKind) returns (category: CategoryBase)
    ensures fresh(category)
    ensures category.kind == kind && category.Value() == Category(0, "", "")
  {
    category := new CategoryBase(kind);
  }

  /** Sets exactly `Id`, `Title` and `CategoryId` of `product`; no other object changes. */
  method AddPropertiesToProduct(product: ProductBase, id: int, title: string, categoryId: int)
    modifies product
    ensures product.Value() == Product(id, title, categoryId)
  {
    product.id := id;
    product.title := title;
    product.categoryId := categoryId;
  }

  /** Sets exactly `Id`, `Title` and `Description` of `category`; no other object changes. */
  method AddPropertiesToCategory(category: CategoryBase, id: int, title: string, description: string)
    modifies category
    ensures category.Value() == Category(id, title, description)
  {
    category.id := id;
    category.title := title;
    category.description := description;
  }

  /** The field values of a list of products, in list order. */
  function ProductValues(products: seq<ProductBase>): (r: seq<Product>)
    reads products
    ensures |r| == |products|
    ensures forall i :: 0 <= i < |products| ==> r[i] == products[i].Value()
  {
    if products == [] then [] else [products[0].Value()] + ProductValues(products[1..])
  }

  /** The field values of a list of categories, in list order. */
  function CategoryValues(categories: seq<CategoryBase>): (r: seq<Category>)
    reads categories
    ensures |r| == |categories|
    ensures forall k :: 0 <= k < |categories| ==> r[k] == categories[k].Value()
  {
    if categories == [] then [] else [categories[0].Value()] + CategoryValues(categories[1..])
  }

  // ---------------------------------------------------------------------
  // The reference inventory
  // ---------------------------------------------------------------------

  function ReferenceProducts(): seq<Product> {
    [ Product(1, "Atomic Habits", 1),
      Product(2, "Avengers Endgame", 2),
      Product(3, "Interstellar", 2),
      Product(4, "Arijit Singh Hits", 3) ]
  }

  function ReferenceCategories(): seq<Category> {
    [ Category(1, "Books", "E-books available for download"),
      Category(2, "Movies", "HD movies available online"),
      Category(3, "Music", "MP3 songs available for streaming") ]
  }

  /** The four records the program prints, in this order. */
  function ReferenceView(): seq<ProductViewModel> {
    [ ProductViewModel(1, "Atomic Habits", "Books", "E-books available for download"),
      ProductViewModel(2, "Avengers Endgame", "Movies", "HD movies available online"),
      ProductViewModel(3, "Interstellar", "Movies", "HD movies available online"),
      ProductViewModel(4, "Arijit Singh Hits", "Music", "MP3 songs available for streaming") ]
  }

  /** On the reference data the join yields four records, in product order. */
  lemma ReferenceJoin()
    ensures GetProducts(ReferenceProducts(), ReferenceCategories()) == ReferenceView()
  {
  }

  /** The product list the program builds: four factory-made products with their fields set, in order. */
  method BuildProducts() returns (products: seq<ProductBase>)
    ensures ProductValues(products) == ReferenceProducts()
    ensures |products| == 4 && products[0].kind == DigitalBook && products[1].kind == Movie
    ensures products[2].kind == Movie && products[3].kind == MusicRecording
  {
    products := [];

    var digitalBook := GetProductInstance(DigitalBook);
    AddPropertiesToProduct(digitalBook, 1, "Atomic Habits", 1);
    products := products + [digitalBook];

    var movie := GetProductInstance(Movie);
    AddPropertiesToProduct(movie, 2, "Avengers Endgame", 2);
    products := products + [movie];
    var firstMovie := movie;

    movie := GetProductInstance(Movie);
    AddPropertiesToProduct(movie, 3, "Interstellar", 2);
    products := products + [movie];

    var album := GetProductInstance(MusicRecording);
    AddPropertiesToProduct(album, 4, "Arijit Singh Hits", 3);
    products := products + [album];

    assert products == [digitalBook, firstMovie, movie, album];
    assert digitalBook.Value() == ReferenceProducts()[0];
    assert firstMovie.Value() == ReferenceProducts()[1];
    assert movie.Value() == ReferenceProducts()[2];
    assert album.Value() == ReferenceProducts()[3];
  }

  /** The category list the program builds: three factory-made categories with their fields set, in order. */
  method BuildCategories() returns (categories: seq<CategoryBase>)
    ensures CategoryValues(categories) == ReferenceCategories()
    ensures |categories| == 3 && categories[0].kind == DigitalBookCategory
    ensures categories[1].kind == MovieCategory && categories[2].kind == MusicCategory
  {
    categories := [];

    var digitalBookCategory := GetCategoryInstance(DigitalBookCategory);
    AddPropertiesToCategory(digitalBookCategory, 1, "Books", "E-books available for download");
    categories := categories + [digitalBookCategory];

    var movieCategory := GetCategoryInstance(MovieCategory);
    AddPropertiesToCategory(movieCategory, 2, "Movies", "HD movies available online");
    categories := categories + [movieCategory];

    var musicCategory := GetCategoryInstance(MusicCategory);
    AddPropertiesToCategory(musicCategory, 3, "Music", "MP3 songs available for streaming");
    categories := categories + [musicCategory];

    assert categories == [digitalBookCategory, movieCategory, musicCategory];
    assert digitalBookCategory.Value() == ReferenceCategories()[0];
    assert movieCategory.Value() == ReferenceCategories()[1];
    assert musicCategory.Value() == ReferenceCategories()[2];
  }

  /**
    The program's inventory and query: build both lists, then join them.
    The query yields the four reference records.
   */
  method QueryInventory() returns (results: seq<ProductViewModel>)
    ensures results == ReferenceView()
  {
    var products := BuildProducts();
    var categories := BuildCategories();
    results := GetProducts(ProductValues(products), CategoryValues(categories));
    ReferenceJoin();
  }
}
