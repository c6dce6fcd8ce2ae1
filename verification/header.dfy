/** The header bar (components/Header.tsx): the search box with its
    suggestions, the logout action, and the account controls that depend on
    the session. */
module Header {
  import opened Types
  import opened Auth
  import opened Router
  import opened Search
  import opened Text

  /** The search box's own state: the typed term and the suggestions shown. */
  datatype HeaderState = HeaderState(searchTerm: string, searchResults: seq<Product>)

  /** An empty box with no suggestions. */
  function InitialHeader(): (h: HeaderState)
    ensures h.searchTerm == "" && h.searchResults == []
  {
    HeaderState("", [])
  }

  /** Typing in the box: the term is stored and the suggestions recomputed for it. */
  function ChangeSearchTerm(catalog: seq<Product>, h: HeaderState, term: string): (g: HeaderState)
    ensures g.searchTerm == term
    ensures g.searchResults == SearchResults(catalog, term)
    ensures |g.searchResults| <= ResultLimit
    ensures forall p :: p in g.searchResults ==> p in catalog && Matches(p, term)
  {
    HeaderState(term, SearchResults(catalog, term))
  }

  /** The suggestions depend only on the term typed last: a blank term shows
      none, and otherwise the first matches, at most five, in catalog order. */
  lemma {:induction false} SuggestionsFollowLastTerm(catalog: seq<Product>, h: HeaderState, terms: seq<string>)
    requires |terms| > 0
    ensures var g := TypeAll(catalog, h, terms);
      && g.searchTerm == terms[|terms| - 1]
      && (Trim(g.searchTerm) == "" ==> g.searchResults == [])
      && (Trim(g.searchTerm) != "" ==>
           g.searchResults == Matching(catalog, g.searchTerm)[..Min(ResultLimit, |Matching(catalog, g.searchTerm)|)])
    decreases |terms|
  {
    if |terms| > 1 {
      SuggestionsFollowLastTerm(catalog, ChangeSearchTerm(catalog, h, terms[0]), terms[1..]);
    }
  }

  /** Typing a sequence of terms one after the other. */
  function TypeAll(catalog: seq<Product>, h: HeaderState, terms: seq<string>): HeaderState
    decreases |terms|
  {
    if |terms| == 0 then h else TypeAll(catalog, ChangeSearchTerm(catalog, h, terms[0]), terms[1..])
  }

  /** Picking a suggestion empties the box and opens that product's page. */
  function SelectSearchResult(h: HeaderState, a: AppState, p: Product): (r: (HeaderState, AppState))
    ensures r.0 == InitialHeader()
    ensures r.1.view == ProductPage(p) && r.1.session == a.session
  {
    (HeaderState("", []), NavigateTo(a, ProductPage(p)))
  }

  /** Header logout: the session goes back to guest, then the home view is shown. */
  function HandleLogout(a: AppState): (b: AppState)
    ensures b.session.authStatus == Guest && b.session.currentUser == None
    ensures b.view == HomePage
    ensures b == InitialApp()
  {
    NavigateTo(a.(session := Logout()), HomePage)
  }

  /** The account controls of the header. */
  datatype Control = LoginButton | SignUpButton | AccountButton | LogoutButton

  /** A guest is offered Login and Sign Up; anybody signed in, Account and Logout. */
  function AuthControls(status: AuthStatus): (cs: seq<Control>)
    ensures status == Guest ==> cs == [LoginButton, SignUpButton]
    ensures status != Guest ==> cs == [AccountButton, LogoutButton]
  {
    if status == Guest then [LoginButton, SignUpButton] else [AccountButton, LogoutButton]
  }

  /** What clicking a control does. */
  function Click(c: Control, a: AppState): (b: AppState)
    ensures c != LogoutButton ==> b.session == a.session
    ensures c == LoginButton ==> b.view == LoginPage
    ensures c == SignUpButton ==> b.view == SignUpPage
    ensures c == AccountButton ==> b.view == AccountPage
    ensures c == LogoutButton ==> b == InitialApp()
  {
    match c
    case LoginButton => NavigateTo(a, LoginPage)
    case SignUpButton => NavigateTo(a, SignUpPage)
    case AccountButton => NavigateTo(a, AccountPage)
    case LogoutButton => HandleLogout(a)
  }

  /** The controls a session is offered lead where their labels say: a guest
      can only go to the login or sign-up page, and only a signed-in user can
      log out, which returns the application to its initial state. */
  lemma ControlsFollowSession(a: AppState, c: Control)
    requires c in AuthControls(a.session.authStatus)
    ensures a.session.authStatus == Guest ==>
      Click(c, a).session == a.session && Click(c, a).view in {LoginPage, SignUpPage}
    ensures a.session.authStatus != Guest ==>
      (Click(c, a).view == AccountPage && Click(c, a).session == a.session) || Click(c, a) == InitialApp()
  {
  }

  /** Choosing a suggestion leaves the box as it was when the page loaded. */
  lemma SelectResetsSearch(catalog: seq<Product>, h: HeaderState, term: string, a: AppState, p: Product)
    ensures SelectSearchResult(ChangeSearchTerm(catalog, h, term), a, p).0 == InitialHeader()
    ensures Render(SelectSearchResult(h, a, p).1.view, a.session.authStatus, catalog) == ProductDetailScreen(p)
  {
  }
}
