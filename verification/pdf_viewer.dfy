/**
 * The PDF viewer's controls (components/PdfViewer.tsx): page navigation and
 * zoom, each handler clamped, and each button disabled at its bound; and the
 * document load handlers. The zoom factor is kept in quarter steps
 * (`scale * 4`), so 1.0 is 4 and the bounds 0.5 and 2.5 are 2 and 10.
 */
module PdfViewer {

  const MinScale: int := 2
  const MaxScale: int := 10
  const InitialScale: int := 4

  /** `goToPrevPage`: `Math.max(prev - 1, 1)`. */
  function PrevPage(page: int): (r: int)
    ensures r >= 1
    ensures page > 1 ==> r == page - 1
    ensures page <= 1 ==> r == 1
  {
    if page - 1 > 1 then page - 1 else 1
  }

  /** `goToNextPage`: `Math.min(prev + 1, numPages)`. */
  function NextPage(page: int, numPages: int): (r: int)
    ensures r <= numPages
    ensures page < numPages ==> r == page + 1
    ensures page >= numPages ==> r == numPages
  {
    if page + 1 < numPages then page + 1 else numPages
  }

  /** `zoomIn`: a quarter step up, at most 2.5. */
  function ZoomIn(scale: int): (r: int)
    ensures r <= MaxScale
    ensures scale < MaxScale ==> r == scale + 1
    ensures scale >= MaxScale ==> r == MaxScale
  {
    if scale + 1 < MaxScale then scale + 1 else MaxScale
  }

  /** `zoomOut`: a quarter step down, at least 0.5. */
  function ZoomOut(scale: int): (r: int)
    ensures r >= MinScale
    ensures scale > MinScale ==> r == scale - 1
    ensures scale <= MinScale ==> r == MinScale
  {
    if scale - 1 > MinScale then scale - 1 else MinScale
  }

  /** Away from the bounds, stepping one way and back returns to where one was. */
  lemma {:induction false} StepsUndo(page: int, numPages: int, scale: int)
    ensures 1 < page <= numPages ==> NextPage(PrevPage(page), numPages) == page
    ensures 1 <= page < numPages ==> PrevPage(NextPage(page, numPages)) == page
    ensures MinScale <= scale < MaxScale ==> ZoomOut(ZoomIn(scale)) == scale
    ensures MinScale < scale <= MaxScale ==> ZoomIn(ZoomOut(scale)) == scale
  {
  }

  class Viewer {
    var numPages: int
    var pageNumber: int
    var scale: int
    var loading: bool
    var useFallback: bool

    /** The page never drops below 1 and the zoom stays within [0.5, 2.5]. */
    predicate Valid()
      reads this
    {
      1 <= pageNumber && MinScale <= scale <= MaxScale
    }

    /** Page 1 of an unknown number, at 1.0, loading, without the fallback. */
    constructor ()
      ensures Valid()
      ensures numPages == 0 && pageNumber == 1 && scale == InitialScale && loading && !useFallback
    {
      numPages, pageNumber, scale, loading, useFallback := 0, 1, InitialScale, true, false;
    }

    predicate PrevDisabled() reads this { pageNumber <= 1 }
    predicate NextDisabled() reads this { pageNumber >= numPages }
    predicate ZoomOutDisabled() reads this { scale <= MinScale }
    predicate ZoomInDisabled() reads this { scale >= MaxScale }

    /** `onDocumentLoadSuccess`. */
    method OnLoadSuccess(pages: int)
      modifies this
      ensures numPages == pages && !loading
      ensures pageNumber == old(pageNumber) && scale == old(scale) && useFallback == old(useFallback)
    {
      numPages := pages;
      loading := false;
    }

    /** `onDocumentLoadError`: the viewer falls back to an iframe. */
    method OnLoadError()
      modifies this
      ensures useFallback && !loading
      ensures numPages == old(numPages) && pageNumber == old(pageNumber) && scale == old(scale)
    {
      useFallback := true;
      loading := false;
    }

    /** A click on the previous-page button: nothing while it is disabled. */
    method ClickPrev()
      requires Valid()
      modifies this`pageNumber
      ensures Valid()
      ensures old(PrevDisabled()) ==> pageNumber == old(pageNumber)
      ensures !old(PrevDisabled()) ==> pageNumber == old(pageNumber) - 1
    {
      if !PrevDisabled() {
        pageNumber := PrevPage(pageNumber);
      }
    }

    /** A click on the next-page button: nothing while it is disabled. */
    method ClickNext()
      requires Valid()
      modifies this`pageNumber
      ensures Valid()
      ensures old(NextDisabled()) ==> pageNumber == old(pageNumber)
      ensures !old(NextDisabled()) ==> pageNumber == old(pageNumber) + 1 <= numPages
    {
      if !NextDisabled() {
        pageNumber := NextPage(pageNumber, numPages);
      }
    }

    /** A click on zoom in: nothing while it is disabled. */
    method ClickZoomIn()
      requires Valid()
      modifies this`scale
      ensures Valid()
      ensures old(ZoomInDisabled()) ==> scale == old(scale)
      ensures !old(ZoomInDisabled()) ==> scale == old(scale) + 1
    {
      if !ZoomInDisabled() {
        scale := ZoomIn(scale);
      }
    }

    /** A click on zoom out: nothing while it is disabled. */
    method ClickZoomOut()
      requires Valid()
      modifies this`scale
      ensures Valid()
      ensures old(ZoomOutDisabled()) ==> scale == old(scale)
      ensures !old(ZoomOutDisabled()) ==> scale == old(scale) - 1
    {
      if !ZoomOutDisabled() {
        scale := ZoomOut(scale);
      }
    }
  }
}
