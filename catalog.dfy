/** The catalog store: the ordered product list with create, update and
    delete by id, the add-on list of each product, the built-in default
    catalog, and the products grouped by category. Fresh product and
    add-on ids come in as parameters. */
module Catalog {
  import opened Types
  import opened Lists

  const Uncategorized := "Uncategorized"

  /** The group a product is listed under: its category, or
      "Uncategorized" when that is absent or empty. */
  function CategoryOf(p: Product): string {
    if p.category.Some? && p.category.value != "" then p.category.value else Uncategorized
  }

  /** A product as given to `addProduct`: everything but the id. */
  datatype ProductInput = ProductInput(
    name: string,
    sku: string,
    priceCents: int,
    category: Option<string>,
    addons: Option<seq<Addon>>)

  /** The fields an `updateProduct` call carries; the id is not one of them. */
  datatype ProductPatch = ProductPatch(
    name: Patch<string>,
    sku: Patch<string>,
    priceCents: Patch<int>,
    category: Patch<Option<string>>,
    addons: Patch<Option<seq<Addon>>>)

  datatype AddonInput = AddonInput(name: string, priceCents: int)

  datatype AddonPatch = AddonPatch(name: Patch<string>, priceCents: Patch<int>)

  const NoChange := ProductPatch(Keep, Keep, Keep, Keep, Keep)

  /** `{ ...p, ...u }`: each field the patch carries replaces the product's. */
  function MergeProduct(p: Product, u: ProductPatch): (r: Product)
    ensures r.id == p.id
    ensures u.name.Set? ==> r.name == u.name.value
    ensures u.name.Keep? ==> r.name == p.name
    ensures u.sku.Set? ==> r.sku == u.sku.value
    ensures u.sku.Keep? ==> r.sku == p.sku
    ensures u.priceCents.Set? ==> r.priceCents == u.priceCents.value
    ensures u.priceCents.Keep? ==> r.priceCents == p.priceCents
    ensures u.category.Set? ==> r.category == u.category.value
    ensures u.category.Keep? ==> r.category == p.category
    ensures u.addons.Set? ==> r.addons == u.addons.value
    ensures u.addons.Keep? ==> r.addons == p.addons
    ensures u == NoChange ==> r == p
  {
    Product(p.id, u.name.Apply(p.name), u.sku.Apply(p.sku), u.priceCents.Apply(p.priceCents),
            u.category.Apply(p.category), u.addons.Apply(p.addons))
  }

  /** `{ ...a, ...u }` for an add-on. */
  function MergeAddon(a: Addon, u: AddonPatch): (r: Addon)
    ensures r.id == a.id
    ensures u.name.Set? ==> r.name == u.name.value
    ensures u.name.Keep? ==> r.name == a.name
    ensures u.priceCents.Set? ==> r.priceCents == u.priceCents.value
    ensures u.priceCents.Keep? ==> r.priceCents == a.priceCents
  {
    Addon(a.id, u.name.Apply(a.name), u.priceCents.Apply(a.priceCents))
  }

  /** The add-ons with id `addonId` merged with `u`, the others as they were. */
  function PatchAddons(addons: seq<Addon>, addonId: string, u: AddonPatch): (r: seq<Addon>)
    ensures |r| == |addons|
    ensures forall i :: 0 <= i < |addons| ==>
      r[i].id == addons[i].id
      && (addons[i].id == addonId ==> r[i] == MergeAddon(addons[i], u))
      && (addons[i].id != addonId ==> r[i] == addons[i])
    ensures (forall a :: a in addons ==> a.id != addonId) ==> r == addons
  {
    var r := seq(|addons|, i requires 0 <= i < |addons| =>
                 if addons[i].id == addonId then MergeAddon(addons[i], u) else addons[i]);
    assert (forall a :: a in addons ==> a.id != addonId) ==> forall i :: 0 <= i < |addons| ==> r[i] == addons[i];
    r
  }

  /** The add-on list of a product, an absent one read as empty. */
  function AddonsOf(p: Product): seq<Addon> {
    p.addons.GetOr([])
  }

  function DefaultProducts(): seq<Product> {
    [
      Product("p_espresso", "Espresso", "COF-ESP", 900, Some("Coffee"),
              Some([Addon("a_extra_shot", "Extra shot", 300), Addon("a_decaf", "Decaf", 0)])),
      Product("p_latte", "Latte", "COF-LAT", 1400, Some("Coffee"),
              Some([Addon("a_oat_milk", "Oat milk", 200), Addon("a_vanilla", "Vanilla syrup", 150),
                    Addon("a_extra_shot", "Extra shot", 300)])),
      Product("p_cappuccino", "Cappuccino", "COF-CAP", 1400, Some("Coffee"),
              Some([Addon("a_oat_milk", "Oat milk", 200), Addon("a_cinnamon", "Cinnamon", 50)])),
      Product("p_water", "Water (500ml)", "DRK-WAT", 500, Some("Drinks"), None),
      Product("p_sparkling", "Sparkling Water", "DRK-SPK", 700, Some("Drinks"), None),
      Product("p_croissant", "Butter Croissant", "BKE-CRO", 1200, Some("Bakery"), None),
      Product("p_cookie", "Chocolate Cookie", "BKE-CKY", 800, Some("Bakery"), None),
      Product("p_sandwich", "Turkey Sandwich", "FOD-SND", 2200, Some("Food"), None)
    ]
  }

  /** The default catalog has eight products with distinct ids. */
  lemma DefaultProductIds()
    ensures |DefaultProducts()| == 8
    ensures DistinctBy(DefaultProducts(), ProductId)
  {
    var ids := ["p_espresso", "p_latte", "p_cappuccino", "p_water", "p_sparkling", "p_croissant", "p_cookie", "p_sandwich"];
    assert forall i :: 0 <= i < 8 ==> ProductId(DefaultProducts()[i]) == ids[i];
  }

  /** The default catalog lists four categories. */
  lemma DefaultCategories()
    ensures Categories(DefaultProducts()) == {"Coffee", "Drinks", "Bakery", "Food"}
  {
    var d := DefaultProducts();
    assert CategoryOf(d[0]) == "Coffee" && CategoryOf(d[3]) == "Drinks";
    assert CategoryOf(d[5]) == "Bakery" && CategoryOf(d[7]) == "Food";
  }

  /** Each product lies in exactly one group, the one for its category. */
  lemma InExactlyOneGroup(products: seq<Product>, p: Product, c: string)
    requires p in products
    ensures p in Only(products, CategoryOf, c) <==> c == CategoryOf(p)
  {
  }

  /** Grouping keeps the relative order: the group of a concatenation is
      the group of the first part followed by the group of the second. */
  lemma GroupOfConcatenation(a: seq<Product>, b: seq<Product>, c: string)
    ensures Only(a + b, CategoryOf, c) == Only(a, CategoryOf, c) + Only(b, CategoryOf, c)
  {
    OnlyAppend(a, b, CategoryOf, c);
  }

  /** The categories that occur among the products. */
  function Categories(products: seq<Product>): set<string> {
    set p | p in products :: CategoryOf(p)
  }

  /** `grouped` is the grouping of `products`: one non-empty group per
      category that occurs, holding that category's products in order. */
  predicate GroupsOf(grouped: map<string, seq<Product>>, products: seq<Product>) {
    && grouped.Keys == Categories(products)
    && (forall c :: c in grouped ==> grouped[c] == Only(products, CategoryOf, c))
    && (forall c :: c in grouped ==> grouped[c] != [])
  }

  lemma CategoriesSnoc(products: seq<Product>, product: Product)
    ensures Categories(products + [product]) == Categories(products) + {CategoryOf(product)}
  {
    assert forall p :: p in products + [product] <==> p in products || p == product;
  }

  /** Pushing one more product onto its category's group (creating the
      group when it is the first of its category) groups one more product. */
  lemma GroupStep(grouped: map<string, seq<Product>>, products: seq<Product>, product: Product)
    requires GroupsOf(grouped, products)
    ensures var cat := CategoryOf(product);
      GroupsOf(grouped[cat := (if cat in grouped then grouped[cat] else []) + [product]], products + [product])
  {
    var cat := CategoryOf(product);
    var next := grouped[cat := (if cat in grouped then grouped[cat] else []) + [product]];
    assert next.Keys == Categories(products + [product]) by {
      CategoriesSnoc(products, product);
    }
    assert forall c :: c in next ==> next[c] == Only(products + [product], CategoryOf, c) by {
      forall c | c in next
        ensures next[c] == Only(products + [product], CategoryOf, c)
      {
        OnlySnoc(products, product, CategoryOf, c);
      }
    }
    assert forall c :: c in next ==> next[c] != [] by {
      forall c | c in next ensures next[c] != [] {
        if c != cat {
          assert next[c] == grouped[c];
        }
      }
    }
  }

  class CatalogStore {
    var products: seq<Product>

    /** Starts from the catalog as loaded (the loading itself is not modelled). */
    constructor (loaded: seq<Product>)
      ensures products == loaded
    {
      products := loaded;
    }

    /** The products grouped by category: one group per category that
        occurs, each holding that category's products in catalog order. */
    method ProductsByCategory() returns (grouped: map<string, seq<Product>>)
      ensures grouped.Keys == Categories(products)
      ensures forall c :: c in grouped ==> grouped[c] == Only(products, CategoryOf, c)
      ensures forall c :: c in grouped ==> grouped[c] != []
    {
      grouped := map[];
      for i := 0 to |products|
        invariant GroupsOf(grouped, products[..i])
      {
        var product := products[i];
        var cat := CategoryOf(product);
        GroupStep(grouped, products[..i], product);
        assert products[..i + 1] == products[..i] + [product];
        var group := if cat in grouped then grouped[cat] else [];
        grouped := grouped[cat := group + [product]];
      }
      assert products[..|products|] == products;
    }

    /** Appends the product under the given fresh id, with `addons`
        defaulting to an empty list, and returns it. */
    method AddProduct(input: ProductInput, productId: string) returns (created: Product)
      modifies this
      ensures created == Product(productId, input.name, input.sku, input.priceCents, input.category,
                                 Some(input.addons.GetOr([])))
      ensures products == old(products) + [created]
    {
      created := Product(productId, input.name, input.sku, input.priceCents, input.category,
                         Some(input.addons.GetOr([])));
      products := products + [created];
    }

    /** Merges the update into the first product with that id; an unknown
        id changes nothing. */
    method UpdateProduct(productId: string, updates: ProductPatch)
      modifies this
      ensures FindKey(old(products), ProductId, productId).None? ==> products == old(products)
      ensures FindKey(old(products), ProductId, productId).Some? ==>
        var i := FindKey(old(products), ProductId, productId).value;
        && products == old(products)[i := MergeProduct(old(products)[i], updates)]
        && products[i].id == productId
    {
      var idx := FindKey(products, ProductId, productId);
      if idx.None? {
        return;
      }
      products := products[idx.value := MergeProduct(products[idx.value], updates)];
    }

    method DeleteProduct(productId: string)
      modifies this
      ensures products == Without(old(products), ProductId, productId)
    {
      products := Without(products, ProductId, productId);
    }

    /** Appends a new add-on, under the given fresh id, to the product's
        add-on list (an absent list read as empty); a missing product
        changes nothing. */
    method AddAddon(productId: string, addon: AddonInput, addonId: string)
      modifies this
      ensures FindKey(old(products), ProductId, productId).None? ==> products == old(products)
      ensures FindKey(old(products), ProductId, productId).Some? ==>
        var i := FindKey(old(products), ProductId, productId).value;
        products == old(products)[i := old(products)[i].(addons :=
          Some(AddonsOf(old(products)[i]) + [Addon(addonId, addon.name, addon.priceCents)]))]
    {
      var found := FindKey(products, ProductId, productId);
      if found.None? {
        return;
      }
      var product := products[found.value];
      var newAddon := Addon(addonId, addon.name, addon.priceCents);
      var addons := AddonsOf(product) + [newAddon];
      UpdateProduct(productId, NoChange.(addons := Set(Some(addons))));
    }

    /** Merges the update into the product's add-ons with id `addonId`; a
        missing product or one without an add-on list changes nothing. */
    method UpdateAddon(productId: string, addonId: string, updates: AddonPatch)
      modifies this
      ensures var found := FindKey(old(products), ProductId, productId);
        found.None? || old(products)[found.value].addons.None? ==> products == old(products)
      ensures var found := FindKey(old(products), ProductId, productId);
        found.Some? && old(products)[found.value].addons.Some? ==>
        var i := found.value;
        products == old(products)[i := old(products)[i].(addons :=
          Some(PatchAddons(old(products)[i].addons.value, addonId, updates)))]
    {
      var found := FindKey(products, ProductId, productId);
      if found.None? || products[found.value].addons.None? {
        return;
      }
      var addons := PatchAddons(products[found.value].addons.value, addonId, updates);
      UpdateProduct(productId, NoChange.(addons := Set(Some(addons))));
    }

    /** Removes the add-ons with id `addonId` from the product; when none
        remain the list becomes absent. A missing product or one without an
        add-on list changes nothing. */
    method DeleteAddon(productId: string, addonId: string)
      modifies this
      ensures var found := FindKey(old(products), ProductId, productId);
        found.None? || old(products)[found.value].addons.None? ==> products == old(products)
      ensures var found := FindKey(old(products), ProductId, productId);
        found.Some? && old(products)[found.value].addons.Some? ==>
        var i := found.value;
        var rest := Without(old(products)[i].addons.value, AddonId, addonId);
        products == old(products)[i := old(products)[i].(addons := if rest == [] then None else Some(rest))]
    {
      var found := FindKey(products, ProductId, productId);
      if found.None? || products[found.value].addons.None? {
        return;
      }
      var addons := Without(products[found.value].addons.value, AddonId, addonId);
      UpdateProduct(productId, NoChange.(addons := Set(if |addons| > 0 then Some(addons) else None)));
    }

    method ResetToDefault()
      modifies this
      ensures products == DefaultProducts()
    {
      products := DefaultProducts();
    }
  }
}
