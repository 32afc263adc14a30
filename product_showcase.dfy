/** The ProductShowcase component: a fixed product catalogue, a search box and
    a category selector that choose which products are shown, and the cart and
    wishlist buttons, which only raise a notification. Prices and ratings are
    `real`. */
module ProductShowcase {
  import opened Seqs
  import opened Text

  datatype Product = Product(
    id: string,
    name: string,
    price: real,
    originalPrice: Option<real>,
    rating: real,
    reviews: nat,
    image: string,
    category: string,
    badge: Option<string>,
    features: seq<string>)

  const Placeholder := "/api/placeholder/300/300"

  /** The catalogue the component is built with. */
  const Products: seq<Product> := [
    Product("1", "AI-Powered Trading Bot", 299.99, Some(399.99), 4.8, 256,
      Placeholder, "software", Some("Best Seller"), ["24/7 Trading", "Risk Management", "Multiple Exchanges"]),
    Product("2", "Crypto Portfolio Tracker Pro", 99.99, None, 4.6, 189,
      Placeholder, "software", Some("New"), ["Real-time Tracking", "Tax Reports", "Mobile App"]),
    Product("3", "Hardware Wallet Premium", 159.99, None, 4.9, 342,
      Placeholder, "hardware", Some("Secure"), ["Multi-currency", "PIN Protection", "2-year Warranty"]),
    Product("4", "DeFi Analytics Dashboard", 199.99, None, 4.7, 128,
      Placeholder, "software", None, ["Yield Farming", "Risk Analysis", "Custom Alerts"]),
    Product("5", "NFT Collection Manager", 79.99, None, 4.5, 95,
      Placeholder, "software", Some("Hot"), ["Multi-blockchain", "Rarity Analysis", "Price Tracking"]),
    Product("6", "Crypto Mining Optimizer", 249.99, None, 4.4, 167,
      Placeholder, "software", None, ["Auto-switching", "Profit Calculator", "Pool Management"])
  ]

  datatype Category = Category(value: string, caption: string)

  /** The options of the category selector; "all" selects every category. */
  const Categories: seq<Category> := [
    Category("all", "All Products"),
    Category("software", "Software"),
    Category("hardware", "Hardware"),
    Category("services", "Services")
  ]

  /** Every product belongs to a category the selector offers. */
  lemma CategoriesCoverProducts()
    ensures forall p :: p in Products ==> exists c :: c in Categories && c.value == p.category && c.value != "all"
  {
    assert Categories[1].value == "software" && Categories[2].value == "hardware";
  }

  /** The selector state: the search box, the category and the sort choice. */
  datatype ShowcaseState = ShowcaseState(searchQuery: string, selectedCategory: string, sortBy: string)

  const InitialState := ShowcaseState("", "all", "featured")

  /** A product is shown when its lowered name includes the lowered query and
      the selected category is "all" or its own. */
  function IsShown(query: string, category: string): Product -> bool
  {
    (p: Product) => Contains(Lower(p.name), Lower(query)) && (category == "all" || p.category == category)
  }

  /** The products of `catalogue` that `filteredProducts` keeps. */
  function FilterCatalogue(catalogue: seq<Product>, query: string, category: string): (r: seq<Product>)
    ensures IsSubsequence(r, catalogue)
    ensures forall p :: p in r <==>
      p in catalogue && Contains(Lower(p.name), Lower(query)) && (category == "all" || p.category == category)
    ensures forall p :: (multiset(r)[p] ==
      if IsShown(query, category)(p) then multiset(catalogue)[p] else 0)
    ensures query == "" && category == "all" ==> r == catalogue
  {
    FilterIsSubsequence(IsShown(query, category), catalogue);
    FilterCounts(IsShown(query, category), catalogue);
    OpenSelectionShowsAll(catalogue, query, category);
    Filter(IsShown(query, category), catalogue)
  }

  /** With an empty query and "all", every product is shown. */
  lemma OpenSelectionShowsAll(catalogue: seq<Product>, query: string, category: string)
    ensures query == "" && category == "all" ==>
      forall i :: 0 <= i < |catalogue| ==> IsShown(query, category)(catalogue[i])
  {
    forall i | 0 <= i < |catalogue|
      ensures Contains(Lower(catalogue[i].name), "")
    {
      ContainsEmpty(Lower(catalogue[i].name));
    }
  }

  /** `filteredProducts`: the catalogue filtered by the query and the category. */
  function FilteredProducts(query: string, category: string): seq<Product>
  {
    FilterCatalogue(Products, query, category)
  }

  /** What the grid shows for a selector state. */
  function Shown(st: ShowcaseState): seq<Product>
  {
    FilteredProducts(st.searchQuery, st.selectedCategory)
  }

  /** The sort choice is held in state but never read: changing it leaves
      what is shown, and its order, unchanged. */
  lemma SortByIgnored(st: ShowcaseState, sortBy: string)
    ensures Shown(st.(sortBy := sortBy)) == Shown(st)
  {
  }

  /** The initial state shows the whole catalogue. */
  lemma InitiallyAllShown()
    ensures Shown(InitialState) == Products
  {
  }

  /** A category no product of the catalogue has shows nothing. */
  lemma NoProductInCategory(catalogue: seq<Product>, query: string, category: string)
    requires category != "all"
    requires forall i :: 0 <= i < |catalogue| ==> catalogue[i].category != category
    ensures FilterCatalogue(catalogue, query, category) == []
  {
    FilterNone(IsShown(query, category), catalogue);
  }

  /** A category only the product at position `k` has shows that product
      when its name matches the query, and nothing otherwise. */
  lemma OneProductInCategory(catalogue: seq<Product>, query: string, category: string, k: int)
    requires category != "all" && 0 <= k < |catalogue|
    requires catalogue[k].category == category
    requires forall i :: 0 <= i < |catalogue| && i != k ==> catalogue[i].category != category
    ensures FilterCatalogue(catalogue, query, category) ==
      if IsShown(query, category)(catalogue[k]) then [catalogue[k]] else []
  {
    var p := IsShown(query, category);
    var before, after := catalogue[..k], catalogue[k + 1..];
    assert catalogue == before + ([catalogue[k]] + after);
    FilterConcat(p, before, [catalogue[k]] + after);
    FilterConcat(p, [catalogue[k]], after);
    FilterNone(p, before);
    assert forall i :: 0 <= i < |after| ==> after[i] == catalogue[k + 1 + i];
    FilterNone(p, after);
    assert [catalogue[k]][1..] == [];
  }

  /** No product is a service, so that category shows nothing, whatever the query. */
  lemma ServicesIsEmpty(query: string)
    ensures FilteredProducts(query, "services") == []
  {
    NoProductInCategory(Products, query, "services");
  }

  /** The hardware category holds only product "3". */
  lemma HardwareIsWallet(query: string)
    ensures Products[2].id == "3"
    ensures FilteredProducts(query, "hardware") ==
      if IsShown(query, "hardware")(Products[2]) then [Products[2]] else []
  {
    OneProductInCategory(Products, query, "hardware", 2);
  }

  /** A notification raised through `toast`. */
  datatype Toast = Toast(title: string, description: string, duration: nat)

  /** `addToCart`: a three-second notification naming the product. The
      component's state is not an input, so it cannot change. */
  function AddToCart(p: Product): (t: Toast)
    ensures t.title == "Added to Cart!" && t.duration == 3000
    ensures |p.name| <= |t.description| && t.description[..|p.name|] == p.name
  {
    Toast("Added to Cart!", p.name + " has been added to your cart.", 3000)
  }

  /** `addToWishlist`: a two-second notification naming the product. */
  function AddToWishlist(p: Product): (t: Toast)
    ensures t.title == "Added to Wishlist" && t.duration == 2000
    ensures |p.name| <= |t.description| && t.description[..|p.name|] == p.name
  {
    Toast("Added to Wishlist", p.name + " has been saved to your wishlist.", 2000)
  }
}
