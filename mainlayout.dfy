/** The layout's choice of the highlighted bottom-navigation tab. */
module MainLayout {
  import opened Types
  import opened JsString

  /** `getActivePage()` for `location.pathname`. The root test ahead of the
      prefix tests never intercepts them, since `/` starts with neither
      prefix: the tab is orders exactly under `/orders`, profile exactly
      under `/profile` (and not `/orders`), and home for every other path. */
  function ActivePage(path: string): (r: Page)
    ensures r == Orders <==> StartsWith(path, "/orders")
    ensures r == Profile <==> StartsWith(path, "/profile") && !StartsWith(path, "/orders")
    ensures r == Home <==> !StartsWith(path, "/orders") && !StartsWith(path, "/profile")
  {
    assert StartsWith(path, "/orders") ==> |path| >= 7;
    assert StartsWith(path, "/profile") ==> |path| >= 8;
    if path == "/" then Home
    else if StartsWith(path, "/orders") then Orders
    else if StartsWith(path, "/profile") then Profile
    else Home
  }
}
