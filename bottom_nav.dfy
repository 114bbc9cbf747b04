/** The mobile tab bar of `src/components/Layout/BottomNav.tsx`: on the
    home page, the sign-in page and the blog it gives way to the footer;
    elsewhere it shows four tabs and marks the one the pathname is under. */
module BottomNav {
  import opened JsValue
  import opened JsString

  datatype Tab = Tab(href: string, caption: string)

  /** The four tabs, in the order they are shown. */
  const Tabs: seq<Tab> := [Tab("/inbox", "Inbox"), Tab("/sent", "Sent"),
                           Tab("/automation", "Automation"), Tab("/control", "Control")]

  /** The footer is shown instead of the tabs for a missing or empty
      pathname, `/`, exactly `/auth`, and anything starting with `/blog`. */
  predicate ShowsFooter(pathname: Option<string>) {
    pathname.None? || pathname.value == "" || pathname.value == "/" || pathname.value == "/auth"
    || StartsWith(pathname.value, "/blog")
  }

  /** A tab is active for its own path and the paths below it. */
  predicate IsActive(pathname: string, href: string) {
    pathname == href || StartsWith(pathname, href + "/")
  }

  /** One rendered link: its target, its caption and its `aria-current`. */
  datatype Link = Link(href: string, caption: string, ariaCurrent: Option<string>)

  /** What is rendered: `None` for the footer, otherwise the tab links. */
  function Render(pathname: Option<string>): Option<seq<Link>> {
    if ShowsFooter(pathname) then None
    else Some(seq(|Tabs|, k requires 0 <= k < |Tabs| =>
                Link(Tabs[k].href, Tabs[k].caption,
                     if IsActive(pathname.value, Tabs[k].href) then Some("page") else None)))
  }

  /** The tabs are shown exactly when the footer is not; they are the four
      tabs in their fixed order, and `aria-current` is `page` exactly on
      the active ones. */
  lemma RenderSpec(pathname: Option<string>)
    ensures Render(pathname).None? <==> ShowsFooter(pathname)
    ensures Render(pathname).Some? ==>
              var links := Render(pathname).value;
              && |links| == 4
              && links[0].caption == "Inbox" && links[1].caption == "Sent"
              && links[2].caption == "Automation" && links[3].caption == "Control"
              && forall k :: 0 <= k < 4 ==>
                   links[k].href == Tabs[k].href
                   && (links[k].ariaCurrent == Some("page") <==> IsActive(pathname.value, Tabs[k].href))
                   && (links[k].ariaCurrent.Some? ==> links[k].ariaCurrent.value == "page")
  {
  }

  /** A pathname under a tab agrees with the tab's path on its second
      character (the one after the leading `/`). */
  lemma ActiveSharesSecondChar(pathname: string, href: string)
    requires |href| >= 2 && IsActive(pathname, href)
    ensures |pathname| >= 2 && pathname[1] == href[1]
  {
    if pathname != href {
      assert pathname[..|href| + 1] == href + "/";
      assert pathname[1] == (href + "/")[1];
    }
  }

  /** No pathname activates two tabs: the tabs' paths already differ in
      their second character. */
  lemma AtMostOneActive(pathname: string, i: int, j: int)
    requires 0 <= i < |Tabs| && 0 <= j < |Tabs|
    requires IsActive(pathname, Tabs[i].href) && IsActive(pathname, Tabs[j].href)
    ensures i == j
  {
    ActiveSharesSecondChar(pathname, Tabs[i].href);
    ActiveSharesSecondChar(pathname, Tabs[j].href);
    assert Tabs[0].href[1] == 'i' && Tabs[1].href[1] == 's';
    assert Tabs[2].href[1] == 'a' && Tabs[3].href[1] == 'c';
  }

  /** Being under a tab needs a `/` after its path: `/inboxes` activates no
      tab, while `/inbox` and `/inbox/3` activate Inbox; `/blogs` shows the
      footer but `/auth/confirm` does not. */
  lemma ActiveExamples()
    ensures !IsActive("/inboxes", "/inbox")
    ensures IsActive("/inbox", "/inbox") && IsActive("/inbox/3", "/inbox")
    ensures ShowsFooter(Some("/blogs")) && !ShowsFooter(Some("/auth/confirm"))
  {
    assert "/inboxes"[..7][6] == 'e' && ("/inbox" + "/")[6] == '/';
    assert "/inbox/3"[..7] == "/inbox/";
    assert "/blogs"[..5] == "/blog";
    assert "/auth/confirm"[..5] == "/auth";
  }
}
