/**
  * components/PrivateRoute.jsx: a page behind sign-in waits until the
  * session is known, then shows the page to a signed-in user and sends
  * anyone else to the login page, remembering where they were going.
  */
module PrivateRoute {

  const LoginRedirect := "/login?redirect="

  datatype RouteView = Loading | ChildOutlet | Navigate(to: string, replace: bool)

  function Decide(ready: bool, isAuthed: bool, pathname: string): (r: RouteView)
    ensures !ready ==> r == Loading
    ensures ready && isAuthed ==> r == ChildOutlet
    ensures ready && !isAuthed ==> r.Navigate? && r.replace
    ensures r.Navigate? ==> |r.to| >= |LoginRedirect| && r.to[..|LoginRedirect|] == LoginRedirect && r.to[|LoginRedirect|..] == pathname
  {
    if !ready then Loading
    else if isAuthed then ChildOutlet
    else Navigate(LoginRedirect + pathname, true)
  }

  /** Before the session is known, the sign-in flag plays no part. */
  lemma NotReadyIgnoresAuth(pathname: string)
    ensures Decide(false, true, pathname) == Decide(false, false, pathname) == Loading
  {
  }

  /** Each (ready, authed) pair leads to exactly one of the three outcomes. */
  lemma OutcomesPartition(ready: bool, isAuthed: bool, pathname: string)
    ensures var r := Decide(ready, isAuthed, pathname);
            (r.Loading? <==> !ready) && (r.ChildOutlet? <==> ready && isAuthed)
            && (r.Navigate? <==> ready && !isAuthed)
  {
  }

  /** Different pages redirect to different login links, so the page to return to is never lost. */
  lemma RedirectRemembersPage(p1: string, p2: string)
    requires p1 != p2
    ensures Decide(true, false, p1) != Decide(true, false, p2)
  {
    assert Decide(true, false, p1).to[|LoginRedirect|..] == p1;
  }
}
