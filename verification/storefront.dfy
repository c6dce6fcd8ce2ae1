/** The application state as a whole: the view and the session, driven by
    the user actions of the header, the login screen and the router, and by
    calls on the auth store from screens outside this model. */
module Storefront {
  import opened Types
  import opened Auth
  import opened Router
  import Header
  import Login

  /** One user action that changes the application state. */
  datatype Action =
    | Navigate(view: View)
    | HeaderLogout
    | PickSuggestion(product: Product)
    | LoginSubmit(form: Login.LoginForm, id: int)
    | StoreCall(event: AuthEvent)

  function Step(a: AppState, act: Action): AppState
  {
    match act
    case Navigate(v) => NavigateTo(a, v)
    case HeaderLogout => Header.HandleLogout(a)
    case PickSuggestion(p) => Header.SelectSearchResult(Header.InitialHeader(), a, p).1
    case LoginSubmit(form, id) => Login.Submit(form, a, id)
    case StoreCall(e) => a.(session := Apply(a.session, e))
  }

  function Steps(a: AppState, acts: seq<Action>): AppState
    decreases |acts|
  {
    if |acts| == 0 then a else Steps(Step(a, acts[0]), acts[1..])
  }

  /** Every state reached from the initial one keeps the session consistent:
      guest exactly when nobody is signed in, otherwise the user's role. */
  lemma {:induction false} ReachableSessionsConsistent(a: AppState, acts: seq<Action>)
    requires Consistent(a.session)
    ensures Consistent(Steps(a, acts).session)
    decreases |acts|
  {
    if |acts| > 0 {
      if acts[0].StoreCall? {
        ReachableConsistent(a.session, [acts[0].event]);
        assert Run(a.session, [acts[0].event]) == Apply(a.session, acts[0].event);
      }
      ReachableSessionsConsistent(Step(a, acts[0]), acts[1..]);
    }
  }

  /** In any reachable state the admin screen is on display only while a
      signed-in user with the administrator role is present. */
  lemma AdminScreenNeedsAdminUser(acts: seq<Action>, catalog: seq<Product>)
    ensures var a := Steps(InitialApp(), acts);
      Render(a.view, a.session.authStatus, catalog) == AdminScreen ==>
        a.session.currentUser.Some? && a.session.currentUser.value.role == Admin
  {
    ReachableSessionsConsistent(InitialApp(), acts);
  }
}
