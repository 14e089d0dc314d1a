/**
 * The route table of the app (frontend/App.tsx): what each path matches
 * while the session is loading, signed in or signed out, and which
 * providers wrap the routes.
 */
module AppRoutes {
  import opened Wrappers
  import StepContent
  import Wizard

  /** The elements the route table can select. */
  datatype Element =
    | Spinner
    | MultiStepContainer
    | LoginPage | RegisterPage | ForgotPasswordPage
    | Navigate(to: string, replace: bool)
    | StepPage(component: StepContent.Component)

  /** The matched route's element and, for a nested route, the child route's element. */
  datatype Matched = Matched(element: Element, child: Option<Element>)

  const ApplyBase := "/en/apply"

  /** The child paths under `/en/apply`, in flow order. */
  const ChildPaths: seq<string> := [
    "personal-details", "residence-address", "public-official-status",
    "employment-status", "industry", "annual-income", "available-to-invest", "plan-to-invest", "investment-source",
    "professional-experience", "risk-tolerance", "trading-objective",
    "verification"]

  /** The full path of child route `i`. */
  function ChildPath(i: nat): string
    requires i < |ChildPaths|
  {
    ApplyBase + "/" + ChildPaths[i]
  }

  /** The child route a path names, if any. */
  function ChildIndex(path: string): (r: Option<nat>)
    ensures r.Some? ==> r.value < |ChildPaths| && ChildPath(r.value) == path
    ensures r.None? ==> forall i :: 0 <= i < |ChildPaths| ==> ChildPath(i) != path
  {
    ChildIndexFrom(path, 0)
  }

  function ChildIndexFrom(path: string, from: nat): (r: Option<nat>)
    requires from <= |ChildPaths|
    ensures r.Some? ==> from <= r.value < |ChildPaths| && ChildPath(r.value) == path
    ensures r.None? ==> forall i :: from <= i < |ChildPaths| ==> ChildPath(i) != path
    decreases |ChildPaths| - from
  {
    if from == |ChildPaths| then None
    else if ChildPath(from) == path then Some(from)
    else ChildIndexFrom(path, from + 1)
  }

  /** `AppRoutes`: the spinner while loading, else the signed-in or the signed-out table. */
  function Resolve(path: string, isAuthenticated: bool, isLoading: bool): Matched {
    if isLoading then Matched(Spinner, None)
    else if isAuthenticated then
      if path == ApplyBase then Matched(MultiStepContainer, Some(Navigate(ChildPath(0), true)))
      else match ChildIndex(path)
        case Some(i) => Matched(MultiStepContainer, Some(StepPage(StepContent.FlowComponents[i])))
        case None => Matched(Navigate(ApplyBase, false), None)
    else if path == "/login" then Matched(LoginPage, None)
    else if path == "/register" then Matched(RegisterPage, None)
    else if path == "/forgot-password" then Matched(ForgotPasswordPage, None)
    else Matched(Navigate("/register", true), None)
  }

  /** While the session is being checked, every path shows the spinner. */
  lemma LoadingShowsSpinner(path: string, isAuthenticated: bool)
    ensures Resolve(path, isAuthenticated, true) == Matched(Spinner, None)
  {
  }

  /**
   * Signed in, the thirteen child paths select their step pages in flow
   * order under the wizard, the base path selects the redirect to the first
   * child with history replaced, and every other path redirects to the base
   * path without replacing history.
   */
  lemma SignedInTable(path: string)
    ensures var m := Resolve(path, true, false);
      (path == ApplyBase ==> m == Matched(MultiStepContainer, Some(Navigate(ApplyBase + "/personal-details", true)))) &&
      (forall i :: 0 <= i < |ChildPaths| && path == ChildPath(i) ==>
        m == Matched(MultiStepContainer, Some(StepPage(StepContent.Render(Wizard.StepFlow[i]))))) &&
      (path != ApplyBase && ChildIndex(path).None? ==> m == Matched(Navigate(ApplyBase, false), None))
  {
    assert ChildPath(0) == ApplyBase + "/personal-details";
    forall i | 0 <= i < |ChildPaths| && path == ChildPath(i)
      ensures Resolve(path, true, false) == Matched(MultiStepContainer, Some(StepPage(StepContent.Render(Wizard.StepFlow[i]))))
    {
      ChildPathsDistinct(i, ChildIndex(path).value);
      StepContent.FlowIdsRender(i);
    }
  }

  /** Distinct child routes have distinct paths. */
  lemma ChildPathsDistinct(i: nat, j: nat)
    requires i < |ChildPaths| && j < |ChildPaths| && ChildPath(i) == ChildPath(j)
    ensures i == j
  {
    assert ChildPaths[i] == ChildPath(i)[|ApplyBase| + 1..];
    assert ChildPaths[j] == ChildPath(j)[|ApplyBase| + 1..];
  }

  /** Signed out, only the three account pages resolve; everything else, wizard paths included, goes to `/register`. */
  lemma SignedOutTable(path: string)
    ensures var m := Resolve(path, false, false);
      m.child.None? &&
      (m.element.Navigate? <==> path !in {"/login", "/register", "/forgot-password"}) &&
      (m.element.Navigate? ==> m.element == Navigate("/register", true)) &&
      m.element != MultiStepContainer
  {
  }

  /** Following a redirect once always reaches a route that is not itself a redirect. */
  lemma RedirectsSettle(path: string, isAuthenticated: bool)
    ensures var m := Resolve(path, isAuthenticated, false);
      m.element.Navigate? ==> !Resolve(m.element.to, isAuthenticated, false).element.Navigate?
  {
  }

  /**
   * Signed in, the base path and the child paths all select the wizard
   * container with a child element. The container renders no `<Outlet/>`,
   * so that child element (a step page, or the index redirect) is never
   * drawn: the container draws its current step itself.
   */
  lemma ChildRoutesNotDrawn(path: string)
    requires path == ApplyBase || ChildIndex(path).Some?
    ensures Resolve(path, true, false).element == MultiStepContainer && Resolve(path, true, false).child.Some?
  {
  }

  /** `AppWrapper`: the form-data provider wraps the routes exactly when signed in. */
  function WrapsFormData(isAuthenticated: bool): bool {
    isAuthenticated
  }

  /**
   * Whenever the wizard is selected, the form-data provider is mounted around
   * it (no component reads the provider through `useFormData`).
   */
  lemma WizardHasFormData(path: string, isAuthenticated: bool, isLoading: bool)
    ensures Resolve(path, isAuthenticated, isLoading).element == MultiStepContainer ==> WrapsFormData(isAuthenticated)
  {
  }
}
