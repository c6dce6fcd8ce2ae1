/** The login screen (pages/LoginPage.tsx): a customer/administrator tab
    and a form whose submission signs in with the chosen role and goes home.
    The password is collected but never checked. */
module Login {
  import opened Types
  import opened Auth
  import opened Router

  /** The screen's state: the two text fields and the selected tab. */
  datatype LoginForm = LoginForm(email: string, password: string, loginType: Role)

  /** Empty fields, customer tab selected. */
  function InitialLoginForm(): (f: LoginForm)
    ensures f.loginType == Customer
    ensures f.email == "" && f.password == ""
  {
    LoginForm("", "", Customer)
  }

  /** Clicking the Customer or Administrator tab. */
  function SelectLoginType(f: LoginForm, role: Role): (g: LoginForm)
    ensures g.loginType == role
    ensures g.email == f.email && g.password == f.password
  {
    f.(loginType := role)
  }

  /** Submitting: sign in with the typed email and the selected role, then go home.
      `id` is the clock reading used as the new user's id. */
  function Submit(f: LoginForm, a: AppState, id: int): (b: AppState)
    ensures b.view == HomePage
    ensures b.session.authStatus == f.loginType
    ensures b.session.currentUser == Some(User(id, f.email, None, f.loginType))
    ensures Consistent(b.session)
  {
    NavigateTo(a.(session := Login(f.email, f.loginType, id)), HomePage)
  }

  /** Any password is accepted: the outcome never depends on it, nor on
      who was signed in before. */
  lemma SubmitIgnoresPassword(f: LoginForm, password: string, a: AppState, b: AppState, id: int)
    ensures Submit(f.(password := password), a, id) == Submit(f, b, id)
  {
  }

  /** Choosing the Administrator tab and submitting, whatever the email and
      password, opens the admin screen on the admin view. */
  lemma AdminTabUnlocksAdminScreen(email: string, password: string, a: AppState, id: int,
                                   catalog: seq<Product>)
    ensures var b := Submit(SelectLoginType(LoginForm(email, password, Customer), Admin), a, id);
      Render(AdminPage, b.session.authStatus, catalog) == AdminScreen
  {
  }
}
