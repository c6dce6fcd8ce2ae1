/** The view router (App.tsx): one current view, replaced outright by
    `navigateTo`, and a total dispatch from the view to the screen shown. */
module Router {
  import opened Types
  import opened Seqs
  import opened Auth

  /** The screens the dispatch can choose, with the data handed to them. */
  datatype Screen =
    | HomeScreen
    | CategoryScreen(category: Category, products: seq<Product>)
    | ProductDetailScreen(product: Product)
    | CheckoutScreen
    | OrderConfirmationScreen
    | FaqScreen
    | PolicyScreen
    | AboutScreen
    | ContactScreen
    | WishlistScreen
    | AdminScreen
    | LoginScreen
    | SignUpScreen
    | AccountScreen

  /** The application state: the current view and the auth store's session. */
  datatype AppState = AppState(view: View, session: Session)

  /** The application starts on the home view with the initial session. */
  function InitialApp(): (a: AppState)
    ensures a.view == HomePage
    ensures a.session.authStatus == Guest && a.session.currentUser == None
  {
    AppState(HomePage, InitialSession())
  }

  /** Navigation replaces the current view, whatever it was, and touches nothing else. */
  function NavigateTo(a: AppState, v: View): (b: AppState)
    ensures b.view == v
    ensures b.session == a.session
  {
    a.(view := v)
  }

  /** The catalog products of one category, in catalog order. */
  function CategoryProducts(catalog: seq<Product>, categoryId: string): (r: seq<Product>)
    ensures forall p :: p in r <==> p in catalog && p.category == categoryId
    ensures forall p :: multiset(r)[p] == if p.category == categoryId then multiset(catalog)[p] else 0
    ensures IsSubsequence(r, catalog)
  {
    FilterIsSubsequence(catalog, (p: Product) => p.category == categoryId);
    FilterCounts(catalog, (p: Product) => p.category == categoryId);
    var r := Filter(catalog, (p: Product) => p.category == categoryId);
    assert forall p :: p in r ==> p in catalog && p.category == categoryId;
    r
  }

  /** The screen shown for view `v` when the session status is `status`. */
  function Render(v: View, status: AuthStatus, catalog: seq<Product>): (r: Screen)
    ensures r == AdminScreen <==> v == AdminPage && status == Admin
    ensures v == AdminPage && status != Admin ==> r == LoginScreen
    ensures v == LoginPage ==> r == LoginScreen
    ensures v.ProductPage? ==> r == ProductDetailScreen(v.product)
    ensures v.CategoryPage? ==> r.CategoryScreen? && r.category == v.category
    ensures v.CategoryPage? ==> forall p :: p in r.products <==> p in catalog && p.category == v.category.id
    ensures v.CategoryPage? ==>
      (forall p :: multiset(r.products)[p] == if p.category == v.category.id then multiset(catalog)[p] else 0)
    ensures v.CategoryPage? ==> IsSubsequence(r.products, catalog)
    ensures v.UnknownPage? ==> r == HomeScreen
    ensures v == HomePage ==> r == HomeScreen
    ensures v == CheckoutPage ==> r == CheckoutScreen
    ensures v == OrderConfirmationPage ==> r == OrderConfirmationScreen
    ensures v == FaqPage ==> r == FaqScreen
    ensures v == PolicyPage ==> r == PolicyScreen
    ensures v == AboutPage ==> r == AboutScreen
    ensures v == ContactPage ==> r == ContactScreen
    ensures v == WishlistPage ==> r == WishlistScreen
    ensures v == SignUpPage ==> r == SignUpScreen
    ensures v == AccountPage ==> r == AccountScreen
  {
    match v
    case HomePage => HomeScreen
    case CategoryPage(category) => CategoryScreen(category, CategoryProducts(catalog, category.id))
    case ProductPage(product) => ProductDetailScreen(product)
    case CheckoutPage => CheckoutScreen
    case OrderConfirmationPage => OrderConfirmationScreen
    case FaqPage => FaqScreen
    case PolicyPage => PolicyScreen
    case AboutPage => AboutScreen
    case ContactPage => ContactScreen
    case WishlistPage => WishlistScreen
    case AdminPage => if status == Admin then AdminScreen else LoginScreen
    case LoginPage => LoginScreen
    case SignUpPage => SignUpScreen
    case AccountPage => AccountScreen
    case UnknownPage(_) => HomeScreen
  }

  /** The admin view is the only one whose screen depends on the session. */
  lemma OnlyAdminViewReadsSession(v: View, s: AuthStatus, t: AuthStatus, catalog: seq<Product>)
    requires v != AdminPage
    ensures Render(v, s, catalog) == Render(v, t, catalog)
  {
  }

  /** Distinct typed views that carry no data show distinct screens, apart
      from the admin view, which shows the login screen to non-admins. */
  lemma DispatchSeparatesViews(v: View, w: View, status: AuthStatus, catalog: seq<Product>)
    requires !v.UnknownPage? && !w.UnknownPage?
    requires Render(v, status, catalog) == Render(w, status, catalog)
    requires status == Admin || (v != AdminPage && w != AdminPage)
    ensures Tag(v) == Tag(w)
  {
  }
}
