/** The previous/next buttons under a paged list, shared by the catalogue and the user table. */
module Paging {

  datatype Pager = Pager(prevDisabled: bool, nextDisabled: bool)

  /** `prev.disabled = page <= 1; next.disabled = page >= totalPages`. */
  function PagerFor(page: int, totalPages: int): Pager {
    Pager(page <= 1, page >= totalPages)
  }

  /**
   * A button is enabled exactly when the page it leads to lies in
   * [1, totalPages]; on a single page both are disabled.
   */
  lemma EnabledButtonsStayInRange(page: int, totalPages: int)
    requires 1 <= page <= totalPages
    ensures !PagerFor(page, totalPages).prevDisabled <==> 1 <= page - 1 <= totalPages
    ensures !PagerFor(page, totalPages).nextDisabled <==> 1 <= page + 1 <= totalPages
    ensures PagerFor(page, totalPages) == Pager(true, true) <==> totalPages == 1
  {
  }
}
