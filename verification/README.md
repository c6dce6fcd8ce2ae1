# Storefront state model

A Dafny model of the application state of a single-page tech storefront
(React/TypeScript). The model covers four pieces of logic and the state they
share:

- **View router** (`App.tsx`): the current `View`, a tagged union of fourteen
  pages. It starts at `home`, and `navigateTo` replaces it outright. A total
  dispatch picks the screen. The `admin` view shows the admin screen only to
  an admin session and the login screen otherwise. A view with an unknown tag
  shows the home screen. The category screen gets the catalog products of
  that category, in catalog order.
- **Auth store** (`context/AuthContext.tsx`): a session of status
  (`guest`/`customer`/`admin`) and optional user. `login`, `signUp` and
  `logout` each replace the session wholesale. In every reachable session the
  status is guest exactly when there is no user, and otherwise it is the
  user's role.
- **Category filtering** (`pages/CategoryPage.tsx`): the brand facet list
  (distinct brands, in order of first appearance), the brand check-box toggle,
  the price slider, and the conjunctive brand-and-price filter.
- **Header** (`components/Header.tsx`) and **login screen**
  (`pages/LoginPage.tsx`): the product search (case-insensitive substring on
  name or brand, at most five results, none for a blank term), picking a
  suggestion, logging out, the guest/member controls, the login tabs and the
  submit action.

The modules follow the source files: `Types` (types.ts), `Auth`, `Router`,
`CategoryFilter`, `Search` and `Header` (both from Header.tsx), and `Login`.
`Storefront` puts them together as one state machine over `(view, session)`.
`Seqs` (order-preserving filter, subsequence, first-appearance
de-duplication) and `Text` (trim, lower-casing, substring search) hold the
JavaScript library behaviour the code relies on.

Data model: `Product`, `Category`, `CartItem` (a product and an integer
quantity), `User` and `AuthStatus` are datatypes. `User.name` and the
colour/storage variant lists are `Option`s. The role of a user is the subset
type `Role` of `AuthStatus`, which excludes `Guest`. The category and product
views carry a `Category` and a `Product` by construction. `UnknownPage(page)`
stands for a runtime view value whose tag is none of the fourteen. The typed
union forbids such a value, but the router's `default:` branch handles it.

Prices are integers. The clock reading that `login` and `signUp` use as the
user id is a parameter.

The category filter tests both price bounds (`price >= lo && price <= hi`,
pages/CategoryPage.tsx:26); the slider moves only the upper one. The slider
label reads "50000+" at its maximum. Even so, the filter excludes products
priced above 50000, as `CategoryFilter.InitialFiltersShowUpToMax` states.

## Model

| member | source | states |
|---|---|---|
| Types.ViewTags | types.ts:38-52 | The view union has exactly fourteen distinct tags; a well-formed view has one of them exactly when it is a typed variant |
| Auth.InitialSession | context/AuthContext.tsx:15-16 | The store starts as guest with no user, a consistent session |
| Auth.Login | context/AuthContext.tsx:18-22 | Login sets the status to the requested role and the user to one with that email, that role, the given id and no name; the result is consistent and does not depend on the previous session |
| Auth.Logout | context/AuthContext.tsx:24-27 | Logout yields status guest and no user, from any session |
| Auth.SignUp | context/AuthContext.tsx:29-33 | Sign-up yields status customer and a customer user with that email, that name and the given id |
| Auth.ReachableConsistent | context/AuthContext.tsx:15-33 | Any sequence of login/logout/signUp calls keeps "guest iff no user, otherwise status is the user's role" |
| Auth.LastCallDecides | context/AuthContext.tsx:18-33 | After any non-empty history the session is determined by the last call alone; no operation inspects the session it replaces |
| Auth.LogoutIdempotent | context/AuthContext.tsx:24-27 | Logging out twice equals logging out once, and both equal the initial session |
| Auth.LoginThenLogout | context/AuthContext.tsx:18-27 | Login sets the status to the role; a login followed by a logout returns to the initial session |
| Router.InitialApp | App.tsx:26 | The application starts on the home view with a guest session |
| Router.NavigateTo | App.tsx:30-33 | Navigation makes the current view exactly the target, whatever it was, and leaves the session alone |
| Seqs.Filter | App.tsx:40 | `Array.prototype.filter`: an element is kept iff it is in the input and passes the test; the result is no longer than the input |
| Seqs.FilterIsSubsequence | App.tsx:40 | The filtered sequence keeps the input's order: it is a subsequence of the input |
| Seqs.FilterCount | App.tsx:40 | Filtering keeps every copy of a passing element and none of a failing one, so multiplicities are those of the input |
| Router.CategoryProducts | App.tsx:40 | The category screen's products are exactly the catalog products of that category id, each with its catalog multiplicity, as a subsequence of the catalog |
| Router.Render | App.tsx:35-67 | Dispatch is total; the admin screen appears iff the view is admin and the status admin, otherwise the admin view shows login; the login view always shows login; the product view passes its product unchanged; the category view passes its category and exactly its products, with their multiplicities, in catalog order; each of the ten plain tags shows its own screen; an unknown tag shows home |
| Router.OnlyAdminViewReadsSession | App.tsx:57-58 | For every view but admin the screen does not depend on the session status |
| Router.DispatchSeparatesViews | App.tsx:36-64 | Two typed views with the same screen have the same tag, except that the admin view falls back to login for non-admins |
| CategoryFilter.InitialFilters | pages/CategoryPage.tsx:12-13 | The filter starts with no brand ticked and the price range 0 to 50000 |
| Seqs.Distinct | pages/CategoryPage.tsx:15 | De-duplication keeps each element once, loses none and adds none, and lists them in order of first appearance |
| CategoryFilter.Brands | pages/CategoryPage.tsx:15 | The facet list has no duplicate, contains every product's brand and only those, in order of first appearance |
| CategoryFilter.BrandFacets | pages/CategoryPage.tsx:15 | A single pass with a set of seen brands produces exactly the facet list |
| CategoryFilter.ToggleBrand | pages/CategoryPage.tsx:17-21 | Toggling a ticked brand removes every copy of it and keeps the others in order; toggling an unticked brand appends it |
| CategoryFilter.ToggleTwice | pages/CategoryPage.tsx:17-21 | Toggling the same brand twice restores the selection as a set, and restores the sequence itself when the brand was not ticked |
| CategoryFilter.ToggleKeepsNoDuplicates | pages/CategoryPage.tsx:17-21 | Toggling never makes a brand appear twice |
| CategoryFilter.FilteredProducts | pages/CategoryPage.tsx:23-29 | A product is shown iff it is in the list, its brand is ticked or nothing is ticked, and its price is within the inclusive range; a shown product keeps its multiplicity; the result is a subsequence of the list |
| CategoryFilter.EmptySelectionFiltersOnPrice | pages/CategoryPage.tsx:25 | With nothing ticked the result equals the price-only filter |
| CategoryFilter.InitialFiltersShowUpToMax | pages/CategoryPage.tsx:13-26 | At the initial state a product is shown iff its price is between 0 and 50000, so dearer products are hidden |
| CategoryFilter.FilterConjunctionExample | pages/CategoryPage.tsx:23-29 | Brand X at 50 and brand Y at 150 under range 0..100: ticking X or nothing shows only X, ticking Y shows nothing |
| CategoryFilter.ApplyFilterEvent | pages/CategoryPage.tsx:54-75 | The slider changes only the upper bound and keeps the lower bound and the brands; a check-box toggles its brand in the selection and keeps the price range |
| CategoryFilter.ReachableFilters | pages/CategoryPage.tsx:75 | From a state with lower bound 0 and no duplicates, any sequence of toggles and slider moves keeps the lower bound 0 and the ticked brands distinct |
| Text.Trim | components/Header.tsx:23 | Trimming leaves a contiguous piece of the string with only white space before and after it, which is empty or starts and ends with a non-space |
| Text.TrimEmptyIffBlank | components/Header.tsx:23 | A term trims to empty exactly when every character is white space |
| Text.ToLowerKeepsBlank | components/Header.tsx:23-29 | A term is blank after trimming exactly when its lower-cased form is |
| Text.ToLower | components/Header.tsx:28-29 | Lower-casing keeps the length and maps each character, changing only A..Z |
| Text.Includes | components/Header.tsx:28-29 | `includes` holds exactly when the needle occurs at some position of the haystack |
| Search.Matching | components/Header.tsx:27-29 | The matches are exactly the catalog products whose lower-cased name or brand contains the lower-cased term, each with its catalog multiplicity, in catalog order |
| Search.SearchResults | components/Header.tsx:22-30 | A blank term gives no results; otherwise at most five results, each a matching catalog product, namely the first min(5, matches) matches |
| Search.SearchResultsInCatalogOrder | components/Header.tsx:27-30 | The results are a subsequence of the catalog |
| Search.FewMatchesAllShown | components/Header.tsx:22-30 | For a non-blank term with at most five matches the suggestions are exactly the matches |
| Search.SearchIgnoresCase | components/Header.tsx:22-30 | Lower-casing the term changes neither its blankness nor the results, for every term |
| Search.UntrimmedTermIsMatched | components/Header.tsx:23-29 | The term is trimmed only for the blank test: "phone " finds nothing in a catalog holding "Phone", although its trimmed form matches |
| Header.InitialHeader | components/Header.tsx:17-18 | The search box starts with an empty term and no suggestions |
| Header.ChangeSearchTerm | components/Header.tsx:22-32 | Typing stores the term and sets the suggestions to the search results for it: at most five, all matching catalog products |
| Header.SuggestionsFollowLastTerm | components/Header.tsx:22-32 | After typing any non-empty series of terms, the box holds the last term, no suggestions if it is blank, and otherwise the first min(5, matches) matches |
| Header.SelectSearchResult | components/Header.tsx:53-57 | Picking a suggestion clears term and suggestions and navigates to that product's view, keeping the session |
| Header.SelectResetsSearch | components/Header.tsx:53-57 | After picking, the search box equals its initial state and the product detail screen shows the picked product |
| Header.HandleLogout | components/Header.tsx:47-51 | Header logout leaves a guest session with no user on the home view, the initial application state |
| Header.AuthControls | components/Header.tsx:113-127 | A guest is offered Login and Sign Up; any non-guest Account and Logout |
| Header.Click | components/Header.tsx:113-127 | Login, Sign Up and Account open the login, sign-up and account views and leave the session alone; Logout returns to the initial state |
| Header.ControlsFollowSession | components/Header.tsx:113-127 | A guest's controls only lead to the login or sign-up view; a member's lead to the account view or log out |
| Login.InitialLoginForm | pages/LoginPage.tsx:10-12 | The form starts with empty fields and the customer tab |
| Login.SelectLoginType | pages/LoginPage.tsx:33-39 | A tab sets the login type to its role and keeps the fields |
| Login.Submit | pages/LoginPage.tsx:15-21 | Submitting leaves status equal to the selected type, a user with the typed email and that role, and the home view |
| Login.SubmitIgnoresPassword | pages/LoginPage.tsx:11-21 | The outcome of submitting depends neither on the password nor on the prior state |
| Login.AdminTabUnlocksAdminScreen | pages/LoginPage.tsx:15-21 | Once the form reaches the submit handler with the administrator tab, whatever email and password it holds, the admin view shows the admin screen |
| Storefront.ReachableSessionsConsistent | context/AuthContext.tsx:15-33 | Every application state reachable through navigation, header, login and store actions has a consistent session |
| Storefront.AdminScreenNeedsAdminUser | App.tsx:57-58 | In any reachable state the admin screen shows only while a signed-in user with the admin role is present |

## Left out

- Cart and wishlist stores: their source (context/CartContext, context/WishlistContext) is not part of this model, so `addToCart`, `updateQuantity`, `clearCart`, the wishlist operations and the totals are not modelled; the screens that only forward to them are left out too.
- data/mockData, pages/SignUpPage and components/StarRating are not part of this model. The catalog is an arbitrary input sequence, and the sign-up page's call on the store is an arbitrary `StoreCall` action.
- Side effects: `window.scrollTo` after navigation, the document mousedown listener that hides suggestions, and the error `useAuth` throws outside its provider.
- The `Date.now()` user ids are a parameter of `Login`, `SignUp` and `Submit`.
- Prices are integers: floating-point prices, display formatting and the `parseInt` of the slider value are not modelled. The slider value is any integer.
- Text.Trim: removes only the six ASCII white-space characters, not the other Unicode white space that JavaScript's `trim` also removes.
- Text.ToLower: maps only A..Z; Unicode case mapping is not modelled.
- The e-mail and password fields of the login form are plain field assignments and have no functions of their own.
- Login.Submit: models the submit handler after the browser's form validation has passed. The `required` and `type="email"` attributes (pages/LoginPage.tsx:52-54, 66-68) make the browser block submission for an empty field or a malformed address; that check is browser behaviour and is not modelled.
- The header's logo and category links call `navigateTo` with the home and category views; `Router.NavigateTo` covers them. The wishlist and cart buttons belong to the stores left out above.
- React mechanics (`useState`, `useMemo`, context, effects) are left out. Typing and recomputing the suggestions are one step (`Header.ChangeSearchTerm`). The category filter state is a plain value; whether React keeps it across a change of category is not modelled.
- Presentation-only screens and markup: footer links, account tabs, and the admin, FAQ, policy, about, contact and order-confirmation pages.
