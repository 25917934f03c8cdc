/** The path dispatch of `App` in src/App.js: the view rendered for the
    current location's pathname. */
module Routing {

  datatype View = LandingView | NotFoundView

  function Route(pathname: string): (v: View)
    ensures v.LandingView? <==> pathname == "/"
    ensures v.NotFoundView? <==> pathname != "/"
  {
    if pathname == "/" then LandingView else NotFoundView
  }

  /** There is no route of its own for the privacy page the footer links to. */
  lemma PrivacyIsNotFound()
    ensures Route("/privacy") == NotFoundView
  {
  }
}
