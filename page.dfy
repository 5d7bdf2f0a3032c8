/**
 * The abstract browser page and the selector helpers that four of the
 * scripts carry identical copies of: findElement (first visible match over
 * an ordered selector list, errors skipped) and waitForElement (findElement
 * polled every 500 ms until a deadline).
 */
module Page {
  import opened Wrappers

  /** What the scripts read from an element handle. */
  datatype Element = Element(visible: bool, attrs: map<string, string>, text: string)

  /** The outcome of `page.$(selector)` followed by `isVisible()`: no match, an exception, or an element. */
  datatype Lookup = Absent | Throws(msg: string) | Found(el: Element)

  /** A snapshot of the page: what each selector currently resolves to (unlisted selectors match nothing). */
  type Page = map<string, Lookup>

  function Query(p: Page, sel: string): Lookup
  {
    if sel in p then p[sel] else Absent
  }

  /** The selector matches an element and that element is visible. */
  predicate IsVisible(p: Page, sel: string)
  {
    Query(p, sel).Found? && Query(p, sel).el.visible
  }

  /** `el.getAttribute(name)`: None stands for null. */
  function Attr(e: Element, name: string): Option<string>
  {
    if name in e.attrs then Some(e.attrs[name]) else None
  }

  /** A selector argument: one string or an array of them. */
  datatype Selectors = One(sel: string) | Many(sels: seq<string>)

  /** `Array.isArray(selectors) ? selectors : [selectors]` */
  function AsList(s: Selectors): (r: seq<string>)
    ensures s.One? ==> r == [s.sel]
    ensures s.Many? ==> r == s.sels
  {
    match s
    case One(x) => [x]
    case Many(xs) => xs
  }

  /** The position of the selector that matched, and the element it matched. */
  datatype Hit = Hit(pos: nat, el: Element)

  /** The first visible match, searching the selectors from position `k` on. */
  function FirstVisibleFrom(p: Page, sels: seq<string>, k: nat): Option<Hit>
    requires k <= |sels|
    decreases |sels| - k
  {
    if k == |sels| then None
    else if IsVisible(p, sels[k]) then Some(Hit(k, Query(p, sels[k]).el))
    else FirstVisibleFrom(p, sels, k + 1)
  }

  /** Specification of findElement. */
  function FirstVisible(p: Page, sels: seq<string>): Option<Hit>
  {
    FirstVisibleFrom(p, sels, 0)
  }

  /** findElement: tries the selectors in order and returns the first visible element; lookups that throw are skipped. */
  method FindElement(p: Page, sels: seq<string>) returns (r: Option<Hit>)
    ensures r == FirstVisible(p, sels)
  {
    var i := 0;
    while i < |sels|
      invariant 0 <= i <= |sels|
      invariant FirstVisible(p, sels) == FirstVisibleFrom(p, sels, i)
    {
      var found := Query(p, sels[i]);
      if found.Found? && found.el.visible {
        return Some(Hit(i, found.el));
      }
      i := i + 1;
    }
    return None;
  }

  /** The first-visible search finds a match exactly when some selector is visible, and it is the earliest one. */
  lemma {:induction false} FirstVisibleFromIsFirst(p: Page, sels: seq<string>, k: nat)
    requires k <= |sels|
    ensures var r := FirstVisibleFrom(p, sels, k);
      (r.Some? <==> exists i :: k <= i < |sels| && IsVisible(p, sels[i])) &&
      (r.Some? ==> k <= r.value.pos < |sels| && IsVisible(p, sels[r.value.pos]) &&
                   r.value.el == Query(p, sels[r.value.pos]).el &&
                   forall j :: k <= j < r.value.pos ==> !IsVisible(p, sels[j]))
    decreases |sels| - k
  {
    if k < |sels| && !IsVisible(p, sels[k]) {
      FirstVisibleFromIsFirst(p, sels, k + 1);
    }
  }

  /** findElement returns the element of the earliest visible selector, and null when none is visible. */
  lemma FirstVisibleIsFirst(p: Page, sels: seq<string>)
    ensures var r := FirstVisible(p, sels);
      (r.None? <==> forall i :: 0 <= i < |sels| ==> !IsVisible(p, sels[i])) &&
      (r.Some? ==> r.value.pos < |sels| && IsVisible(p, sels[r.value.pos]) &&
                   r.value.el == Query(p, sels[r.value.pos]).el &&
                   forall j :: 0 <= j < r.value.pos ==> !IsVisible(p, sels[j]))
  {
    FirstVisibleFromIsFirst(p, sels, 0);
  }

  /** Selectors that are absent, hidden or throwing never stop the search: only the visible ones matter. */
  lemma FirstVisibleIgnoresFailures(p: Page, q: Page, sels: seq<string>)
    requires forall i :: 0 <= i < |sels| ==> (IsVisible(p, sels[i]) <==> IsVisible(q, sels[i]))
    requires forall i :: 0 <= i < |sels| && IsVisible(p, sels[i]) ==> Query(p, sels[i]) == Query(q, sels[i])
    ensures FirstVisible(p, sels) == FirstVisible(q, sels)
  {
    FirstVisibleIsFirst(p, sels);
    FirstVisibleIsFirst(q, sels);
  }

  // ---------------------------------------------------------------
  // waitForElement
  // ---------------------------------------------------------------

  /** The poll interval of waitForElement, in milliseconds. */
  const ElementPollMs := 500

  /**
   * Specification of waitForElement: the first poll `k` (at elapsed time
   * 500*k, still under the timeout) whose page shows a visible match.
   */
  function WaitHitFrom(pages: nat -> Page, sels: seq<string>, timeout: int, k: nat): Option<(nat, Hit)>
    decreases if timeout > ElementPollMs * k then timeout - ElementPollMs * k else 0
  {
    if ElementPollMs * k >= timeout then None
    else match FirstVisible(pages(k), sels)
      case Some(h) => Some((k, h))
      case None => WaitHitFrom(pages, sels, timeout, k + 1)
  }

  /**
   * waitForElement: `pages(k)` is the page at the k-th poll. Returns the poll
   * index and the hit, or None once the elapsed time reaches the timeout.
   */
  method WaitForElement(pages: nat -> Page, sels: seq<string>, timeout: int) returns (r: Option<(nat, Hit)>)
    ensures r == WaitHitFrom(pages, sels, timeout, 0)
  {
    var k: nat := 0;
    var elapsed := 0;
    while elapsed < timeout
      invariant elapsed == ElementPollMs * k
      invariant WaitHitFrom(pages, sels, timeout, 0) == WaitHitFrom(pages, sels, timeout, k)
      decreases timeout - elapsed
    {
      var hit := FindElement(pages(k), sels);
      if hit.Some? {
        return Some((k, hit.value));
      }
      elapsed := elapsed + ElementPollMs;
      k := k + 1;
    }
    return None;
  }

  /** A hit comes from a poll before the deadline whose page shows it, and every earlier poll showed nothing. */
  lemma {:induction false} WaitHitFromSound(pages: nat -> Page, sels: seq<string>, timeout: int, k: nat)
    ensures var r := WaitHitFrom(pages, sels, timeout, k);
      (r.Some? ==> k <= r.value.0 && ElementPollMs * r.value.0 < timeout &&
                   FirstVisible(pages(r.value.0), sels) == Some(r.value.1) &&
                   forall j :: k <= j < r.value.0 ==> FirstVisible(pages(j), sels).None?) &&
      (r.None? ==> forall j :: k <= j && ElementPollMs * j < timeout ==> FirstVisible(pages(j), sels).None?)
    decreases if timeout > ElementPollMs * k then timeout - ElementPollMs * k else 0
  {
    if ElementPollMs * k < timeout && FirstVisible(pages(k), sels).None? {
      WaitHitFromSound(pages, sels, timeout, k + 1);
    }
  }

  /** With a timeout of zero or less the page is never polled. */
  lemma WaitNeverPollsWithoutTime(pages: nat -> Page, sels: seq<string>, timeout: int)
    requires timeout <= 0
    ensures WaitHitFrom(pages, sels, timeout, 0).None?
  {
  }
}
