/**
 * `Tabs`: one active label, selected by clicking its button; a button is
 * highlighted and a tab's content shown exactly when its label is the active one.
 */
module Tabs {
  import opened JsValue

  /** A tab; `name` is its `label` (a reserved word in Dafny). */
  datatype Tab = Tab(name: string, content: Value)

  /** `useState(tabs[0].name)`: with no tabs this read throws, so a tab is required. */
  function InitialActive(tabs: seq<Tab>): (active: string)
    requires |tabs| > 0
    ensures active == tabs[0].name
  {
    tabs[0].name
  }

  /** The `onClick` of the button of `tab`: `setActiveTab(tab.name)`. */
  function Click(tab: Tab): (active: string)
    ensures active == tab.name
  {
    tab.name
  }

  /** Which buttons get the highlighted class. */
  function Highlights(tabs: seq<Tab>, active: string): (r: seq<bool>)
    ensures |r| == |tabs|
    ensures forall i :: 0 <= i < |tabs| ==> (r[i] <==> tabs[i].name == active)
  {
    seq(|tabs|, i requires 0 <= i < |tabs| => tabs[i].name == active)
  }

  /** The contents rendered under the buttons, in tab order. */
  function Visible(tabs: seq<Tab>, active: string): (r: seq<Value>)
    ensures |r| <= |tabs|
    ensures |r| == CountTrue(Highlights(tabs, active))
    ensures forall c :: c in r <==> exists i :: 0 <= i < |tabs| && tabs[i].name == active && tabs[i].content == c
  {
    if tabs == [] then []
    else
      var rest := Visible(tabs[1..], active);
      assert Highlights(tabs, active)[1..] == Highlights(tabs[1..], active);
      assert forall c :: c in rest <==> exists i :: 1 <= i < |tabs| && tabs[i].name == active && tabs[i].content == c by {
        forall c | c in rest ensures exists i :: 1 <= i < |tabs| && tabs[i].name == active && tabs[i].content == c {
          var j :| 0 <= j < |tabs[1..]| && tabs[1..][j].name == active && tabs[1..][j].content == c;
          assert tabs[j + 1] == tabs[1..][j];
        }
        forall c | (exists i :: 1 <= i < |tabs| && tabs[i].name == active && tabs[i].content == c) ensures c in rest {
          var i :| 1 <= i < |tabs| && tabs[i].name == active && tabs[i].content == c;
          assert tabs[1..][i - 1] == tabs[i];
        }
      }
      if tabs[0].name == active then [tabs[0].content] + rest else rest
  }

  function CountTrue(bs: seq<bool>): nat {
    if bs == [] then 0 else (if bs[0] then 1 else 0) + CountTrue(bs[1..])
  }

  predicate UniqueNames(tabs: seq<Tab>) {
    forall i, j :: 0 <= i < j < |tabs| ==> tabs[i].name != tabs[j].name
  }

  /** No tab carries the label: nothing is shown. */
  lemma {:induction false} VisibleNone(tabs: seq<Tab>, active: string)
    requires forall i :: 0 <= i < |tabs| ==> tabs[i].name != active
    ensures Visible(tabs, active) == []
  {
    if tabs != [] {
      VisibleNone(tabs[1..], active);
    }
  }

  /** With unique labels, the content shown is exactly that of the tab whose label is active. */
  lemma {:induction false} VisibleUnique(tabs: seq<Tab>, k: nat)
    requires UniqueNames(tabs)
    requires k < |tabs|
    ensures Visible(tabs, tabs[k].name) == [tabs[k].content]
  {
    if k == 0 {
      VisibleNone(tabs[1..], tabs[0].name);
    } else {
      assert tabs[0].name != tabs[k].name;
      assert UniqueNames(tabs[1..]) by {
        forall i, j | 0 <= i < j < |tabs[1..]| ensures tabs[1..][i].name != tabs[1..][j].name {
          assert tabs[1..][i] == tabs[i + 1] && tabs[1..][j] == tabs[j + 1];
        }
      }
      assert tabs[1..][k - 1] == tabs[k];
      VisibleUnique(tabs[1..], k - 1);
    }
  }

  /** With unique labels, exactly one button is highlighted: the one of the tab whose label is active. */
  lemma {:induction false} OneHighlight(tabs: seq<Tab>, k: nat)
    requires UniqueNames(tabs)
    requires k < |tabs|
    ensures CountTrue(Highlights(tabs, tabs[k].name)) == 1
  {
    var h := Highlights(tabs, tabs[k].name);
    if k == 0 {
      NoHighlight(tabs[1..], tabs[0].name);
      assert h[1..] == Highlights(tabs[1..], tabs[0].name);
    } else {
      assert UniqueNames(tabs[1..]) by {
        forall i, j | 0 <= i < j < |tabs[1..]| ensures tabs[1..][i].name != tabs[1..][j].name {
          assert tabs[1..][i] == tabs[i + 1] && tabs[1..][j] == tabs[j + 1];
        }
      }
      assert tabs[1..][k - 1] == tabs[k];
      OneHighlight(tabs[1..], k - 1);
      assert h[1..] == Highlights(tabs[1..], tabs[k].name);
      assert !h[0];
    }
  }

  lemma {:induction false} NoHighlight(tabs: seq<Tab>, active: string)
    requires forall i :: 0 <= i < |tabs| ==> tabs[i].name != active
    ensures CountTrue(Highlights(tabs, active)) == 0
  {
    if tabs != [] {
      assert Highlights(tabs, active)[1..] == Highlights(tabs[1..], active);
      NoHighlight(tabs[1..], active);
    }
  }

  /**
   * When the component first renders, the first tab is highlighted; with
   * unique labels its content alone is shown.
   */
  lemma FirstTabSelected(tabs: seq<Tab>)
    requires |tabs| > 0
    ensures Highlights(tabs, InitialActive(tabs))[0]
    ensures UniqueNames(tabs) ==> Visible(tabs, InitialActive(tabs)) == [tabs[0].content]
  {
    if UniqueNames(tabs) {
      VisibleUnique(tabs, 0);
    }
  }

  /** After a click on tab `k`, that tab alone is highlighted and shown. */
  lemma ClickSelects(tabs: seq<Tab>, k: nat)
    requires UniqueNames(tabs) && k < |tabs|
    ensures Highlights(tabs, Click(tabs[k]))[k]
    ensures CountTrue(Highlights(tabs, Click(tabs[k]))) == 1
    ensures Visible(tabs, Click(tabs[k])) == [tabs[k].content]
  {
    OneHighlight(tabs, k);
    VisibleUnique(tabs, k);
  }
}
