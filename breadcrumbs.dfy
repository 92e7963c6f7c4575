// The breadcrumb trail: each item becomes one crumb, a link or plain text, with a "/"
// separator before every crumb but the first and the last crumb marked as the current page.
// The markup and styling are left out; what remains is the classification of the items.

module Breadcrumbs {
  import opened Js

  /** `BreadcrumbItem`: a caption and an optional target. */
  datatype Item = Item(caption: string, href: Option<string>)

  /** What a crumb shows: a link to `target`, or plain text, marked `aria-current="page"`
      when `current`. */
  datatype Body = Link(caption: string, target: string) | Text(caption: string, current: bool)

  /** One list entry: whether it starts with the "/" separator, and its body. */
  datatype Crumb = Crumb(separator: bool, body: Body)

  /** `item.href` is truthy: present and not the empty string. */
  predicate HasHref(item: Item) {
    item.href.Some? && item.href.value != ""
  }

  predicate IsCurrent(c: Crumb) {
    c.body.Text? && c.body.current
  }

  /** The crumb the `map` callback builds for the item at `idx`. */
  function CrumbAt(items: seq<Item>, idx: nat): Crumb
    requires idx < |items|
  {
    var item := items[idx];
    var isLast := idx == |items| - 1;
    Crumb(idx > 0,
          if HasHref(item) && !isLast then Link(item.caption, item.href.value)
          else Text(item.caption, isLast))
  }

  /** `items.map(...)`: one crumb per item, in order, with its caption; a separator exactly
      before the non-first ones; a link exactly for a non-last item with a truthy `href`, to
      that `href`; and among the plain ones, only the last is the current page. */
  function Crumbs(items: seq<Item>): (r: seq<Crumb>)
    ensures |r| == |items|
    ensures forall i :: 0 <= i < |r| ==> r[i].body.caption == items[i].caption
    ensures forall i :: 0 <= i < |r| ==> (r[i].separator <==> i > 0)
    ensures forall i :: 0 <= i < |r| ==> (r[i].body.Link? <==> HasHref(items[i]) && i < |r| - 1)
    ensures forall i :: 0 <= i < |r| && r[i].body.Link? ==> HasHref(items[i]) && r[i].body.target == items[i].href.value
    ensures forall i :: 0 <= i < |r| ==> (IsCurrent(r[i]) <==> i == |r| - 1)
  {
    seq(|items|, i requires 0 <= i < |items| => CrumbAt(items, i))
  }

  /** `Breadcrumbs({ items })`: nothing (`null`) for a missing or empty list, else the trail. */
  function Render(items: Option<seq<Item>>): (r: Option<seq<Crumb>>)
    ensures r.None? <==> items.None? || items.value == []
    ensures r.Some? ==> |r.value| == |items.value| && IsCurrent(r.value[|r.value| - 1])
    ensures r.Some? ==> r.value == Crumbs(items.value)
  {
    if items.None? || |items.value| == 0 then None else Some(Crumbs(items.value))
  }

  /** The number of crumbs marked as the current page. */
  function CurrentCount(cs: seq<Crumb>): nat {
    if cs == [] then 0 else (if IsCurrent(cs[0]) then 1 else 0) + CurrentCount(cs[1..])
  }

  /** The number of crumbs preceded by a separator. */
  function SeparatorCount(cs: seq<Crumb>): nat {
    if cs == [] then 0 else (if cs[0].separator then 1 else 0) + SeparatorCount(cs[1..])
  }

  lemma {:induction false} NoneCurrent(cs: seq<Crumb>)
    requires forall i :: 0 <= i < |cs| ==> !IsCurrent(cs[i])
    ensures CurrentCount(cs) == 0
  {
    if cs != [] {
      assert forall i :: 0 <= i < |cs[1..]| ==> cs[1..][i] == cs[i + 1];
      NoneCurrent(cs[1..]);
    }
  }

  lemma {:induction false} OnlyCurrent(cs: seq<Crumb>, k: nat)
    requires k < |cs| && IsCurrent(cs[k])
    requires forall i :: 0 <= i < |cs| && i != k ==> !IsCurrent(cs[i])
    ensures CurrentCount(cs) == 1
  {
    assert forall i :: 0 <= i < |cs[1..]| ==> cs[1..][i] == cs[i + 1];
    if k == 0 {
      NoneCurrent(cs[1..]);
    } else {
      OnlyCurrent(cs[1..], k - 1);
    }
  }

  /** A rendered trail has exactly one current-page crumb. */
  lemma OneCurrentPage(items: seq<Item>)
    requires items != []
    ensures CurrentCount(Crumbs(items)) == 1
  {
    OnlyCurrent(Crumbs(items), |items| - 1);
  }

  lemma {:induction false} AllSeparated(cs: seq<Crumb>)
    requires forall i :: 0 <= i < |cs| ==> cs[i].separator
    ensures SeparatorCount(cs) == |cs|
  {
    if cs != [] {
      assert forall i :: 0 <= i < |cs[1..]| ==> cs[1..][i] == cs[i + 1];
      AllSeparated(cs[1..]);
    }
  }

  /** A trail of n crumbs has n - 1 separators. */
  lemma SeparatorsBetween(items: seq<Item>)
    requires items != []
    ensures SeparatorCount(Crumbs(items)) == |items| - 1
  {
    var cs := Crumbs(items);
    assert forall i :: 0 <= i < |cs[1..]| ==> cs[1..][i] == cs[i + 1];
    AllSeparated(cs[1..]);
  }
}
