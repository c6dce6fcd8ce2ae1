/** The storefront's records and tagged unions (types.ts). */
module Types {

  datatype Option<T> = None | Some(value: T)

  /** The optional colour and storage choices a product offers. */
  datatype Variants = Variants(color: Option<seq<string>>, storage: Option<seq<string>>)

  /** A catalog entry. Prices are whole amounts of the display currency;
      `category` is the id of the `Category` the product belongs to. */
  datatype Product = Product(
    id: int,
    name: string,
    category: string,
    brand: string,
    price: int,
    description: string,
    longDescription: string,
    image: string,
    rating: real,
    reviewCount: int,
    specs: map<string, string>,
    variants: Variants)

  datatype Category = Category(id: string, name: string, image: string)

  /** A product in the cart together with how many of it were added. */
  datatype CartItem = CartItem(product: Product, quantity: int)

  /** Who is signed in: nobody, a customer or an administrator. */
  datatype AuthStatus = Guest | Customer | Admin

  /** The role of a signed-in user: never `Guest`. */
  type Role = s: AuthStatus | s != Guest witness Customer

  datatype User = User(id: int, email: string, name: Option<string>, role: Role)

  /** The active screen together with the data it needs. The fourteen
      typed pages are the variants of the union; `UnknownPage` stands for a
      value whose `page` tag is none of them, which the typed union rules
      out but the router's `default:` branch still handles. */
  datatype View =
    | HomePage
    | CategoryPage(category: Category)
    | ProductPage(product: Product)
    | CheckoutPage
    | OrderConfirmationPage
    | FaqPage
    | WishlistPage
    | AdminPage
    | LoginPage
    | SignUpPage
    | AccountPage
    | PolicyPage
    | AboutPage
    | ContactPage
    | UnknownPage(page: string)

  /** The `page` tag of each view, as spelled in the union. */
  function Tag(v: View): string
  {
    match v
    case HomePage => "home"
    case CategoryPage(_) => "category"
    case ProductPage(_) => "product"
    case CheckoutPage => "checkout"
    case OrderConfirmationPage => "order-confirmation"
    case FaqPage => "faq"
    case WishlistPage => "wishlist"
    case AdminPage => "admin"
    case LoginPage => "login"
    case SignUpPage => "signup"
    case AccountPage => "account"
    case PolicyPage => "policy"
    case AboutPage => "about"
    case ContactPage => "contact"
    case UnknownPage(page) => page
  }

  /** The fourteen tags of the typed union, in declaration order. */
  const Tags: seq<string> := [
    "home", "category", "product", "checkout", "order-confirmation", "faq", "wishlist",
    "admin", "login", "signup", "account", "policy", "about", "contact"]

  /** An `UnknownPage` really carries a tag outside the union. */
  predicate WellFormed(v: View)
  {
    v.UnknownPage? ==> v.page !in Tags
  }

  /** The union has exactly fourteen distinct tags; a well-formed view has a
      known tag exactly when it is one of the typed variants. */
  lemma ViewTags(v: View)
    ensures |Tags| == 14
    ensures forall i, j :: 0 <= i < j < |Tags| ==> Tags[i] != Tags[j]
    ensures !v.UnknownPage? ==> Tag(v) in Tags
    ensures WellFormed(v) ==> (Tag(v) in Tags <==> !v.UnknownPage?)
  {
  }
}
