/**
 * `Pagination`: the page list 1..totalPages built by a loop, one button per
 * page, the highlight on the current page, and the page number each button
 * hands to `onPageChange`.
 */
module Pagination {

  /** `[1, 2, ..., totalPages]`, empty when `totalPages < 1`. */
  function PageRange(totalPages: int): (pages: seq<int>)
    ensures |pages| == if totalPages < 1 then 0 else totalPages
    ensures forall i :: 0 <= i < |pages| ==> pages[i] == i + 1
  {
    if totalPages < 1 then [] else seq(totalPages, i requires 0 <= i < totalPages => i + 1)
  }

  /** `for (let i = 1; i <= totalPages; i++) pages.push(i);` */
  method BuildPages(totalPages: int) returns (pages: seq<int>)
    ensures pages == PageRange(totalPages)
  {
    pages := [];
    var i := 1;
    while i <= totalPages
      invariant 1 <= i && (i == 1 || i <= totalPages + 1)
      invariant |pages| == i - 1
      invariant forall k :: 0 <= k < |pages| ==> pages[k] == k + 1
      decreases totalPages - i
    {
      pages := pages + [i];
      i := i + 1;
    }
    var expected := PageRange(totalPages);
    assert |pages| == |expected|;
    assert forall k :: 0 <= k < |pages| ==> pages[k] == expected[k];
  }

  datatype Button = Button(page: int, highlighted: bool)

  /** `pages.map(page => <button ...>)`: highlighted exactly when `currentPage === page`. */
  function Render(pages: seq<int>, currentPage: int): (buttons: seq<Button>)
    ensures |buttons| == |pages|
    ensures forall i :: 0 <= i < |pages| ==> buttons[i].page == pages[i]
    ensures forall i :: 0 <= i < |pages| ==> (buttons[i].highlighted <==> pages[i] == currentPage)
  {
    seq(|pages|, i requires 0 <= i < |pages| => Button(pages[i], pages[i] == currentPage))
  }

  /** The argument `onPageChange` receives when button `k` is clicked. */
  function ClickArgument(totalPages: int, currentPage: int, k: nat): (page: int)
    requires k < |PageRange(totalPages)|
    ensures 1 <= page <= totalPages
    ensures page == Render(PageRange(totalPages), currentPage)[k].page
  {
    Render(PageRange(totalPages), currentPage)[k].page
  }

  function CountHighlighted(buttons: seq<Button>): nat {
    if buttons == [] then 0 else (if buttons[0].highlighted then 1 else 0) + CountHighlighted(buttons[1..])
  }

  /** Over pages that are strictly increasing, at most one button is highlighted, and one if the current page is listed. */
  lemma {:induction false} HighlightCount(pages: seq<int>, currentPage: int)
    requires forall i, j :: 0 <= i < j < |pages| ==> pages[i] < pages[j]
    ensures CountHighlighted(Render(pages, currentPage)) == if currentPage in pages then 1 else 0
  {
    if pages != [] {
      var buttons := Render(pages, currentPage);
      assert buttons[1..] == Render(pages[1..], currentPage);
      HighlightCount(pages[1..], currentPage);
      if pages[0] == currentPage {
        assert currentPage !in pages[1..] by {
          forall i | 0 <= i < |pages[1..]| ensures pages[1..][i] != currentPage {
            assert pages[1..][i] == pages[i + 1];
          }
        }
      }
      assert pages == [pages[0]] + pages[1..];
    }
  }

  /** With the current page in range, exactly one button is highlighted; otherwise none is. */
  lemma ExactlyOneHighlighted(totalPages: int, currentPage: int)
    ensures CountHighlighted(Render(PageRange(totalPages), currentPage)) == if 1 <= currentPage <= totalPages then 1 else 0
  {
    var pages := PageRange(totalPages);
    HighlightCount(pages, currentPage);
    if 1 <= currentPage <= totalPages {
      assert pages[currentPage - 1] == currentPage;
    }
  }
}
