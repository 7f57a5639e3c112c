/**
 * The parsed page, abstracted as its elements in document order, and the
 * first-match search that stands in for BeautifulSoup's find(name, class_=...).
 */
module Markup {
  import opened Wrappers

  /** One element of the page: its tag name, its class attribute as a set, and its text. */
  datatype Element = Element(tag: string, classes: set<string>, text: string)

  /** A tag name and, optionally, a class the element must carry. */
  datatype Selector = Selector(tag: string, className: Option<string>)

  predicate Matches(sel: Selector, e: Element) {
    e.tag == sel.tag && (sel.className.Some? ==> sel.className.value in e.classes)
  }

  /**
   * The first element of doc, in document order, that sel matches; None when
   * no element matches.
   */
  function Find(doc: seq<Element>, sel: Selector): (r: Option<Element>)
    ensures r.None? <==> forall i :: 0 <= i < |doc| ==> !Matches(sel, doc[i])
    ensures r.Some? ==> r.value in doc && Matches(sel, r.value)
  {
    if doc == [] then None
    else if Matches(sel, doc[0]) then Some(doc[0])
    else
      var r := Find(doc[1..], sel);
      assert forall i :: 1 <= i < |doc| ==> doc[i] == doc[1..][i - 1];
      r
  }

  /** Find returns the element at the first matching position, and only that one. */
  lemma {:induction false} FindFirst(doc: seq<Element>, sel: Selector, i: nat)
    requires i < |doc| && Matches(sel, doc[i])
    requires forall j :: 0 <= j < i ==> !Matches(sel, doc[j])
    ensures Find(doc, sel) == Some(doc[i])
  {
    if i > 0 {
      assert !Matches(sel, doc[0]);
      assert forall j :: 0 <= j < i - 1 ==> doc[1..][j] == doc[j + 1];
      FindFirst(doc[1..], sel, i - 1);
    }
  }

  /** Elements after the first match are never consulted. */
  lemma FindIgnoresLater(pre: seq<Element>, e: Element, post1: seq<Element>, post2: seq<Element>, sel: Selector)
    requires forall j :: 0 <= j < |pre| ==> !Matches(sel, pre[j])
    requires Matches(sel, e)
    ensures Find(pre + [e] + post1, sel) == Find(pre + [e] + post2, sel) == Some(e)
  {
    var d1, d2 := pre + [e] + post1, pre + [e] + post2;
    assert forall j :: 0 <= j < |pre| ==> d1[j] == pre[j] && d2[j] == pre[j];
    FindFirst(d1, sel, |pre|);
    FindFirst(d2, sel, |pre|);
  }
}
