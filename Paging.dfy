/**
 * The paging arithmetic the list tools share: the page-size clamp of every
 * `_clamp_page_size` and the offset-based `next_offset` rule.
 */
module Paging {
  import opened Wrappers

  /** `MAX_PAGE_SIZE`. */
  const MaxPageSize := 200

  /** `max(1, min(page_size, MAX_PAGE_SIZE))`. */
  function ClampPageSize(pageSize: int): (r: int)
    ensures 1 <= r <= MaxPageSize
    ensures 1 <= pageSize <= MaxPageSize ==> r == pageSize
    ensures pageSize < 1 ==> r == 1
    ensures pageSize > MaxPageSize ==> r == MaxPageSize
  {
    var capped := if pageSize < MaxPageSize then pageSize else MaxPageSize;
    if capped > 1 then capped else 1
  }

  /** `offset + page_size` when that is below an integer `total`, else `None`. */
  function NextOffset(offset: int, pageSize: int, total: Option<int>): (r: Option<int>)
    ensures r.Some? <==> total.Some? && offset + pageSize < total.value
    ensures r.Some? ==> r.value == offset + pageSize
  {
    if total.Some? && offset + pageSize < total.value then Some(offset + pageSize) else None
  }

  /** The offset of the last page a client reaches by following `next_offset` from `offset`. */
  function LastOffset(offset: int, pageSize: int, total: int): int
    requires pageSize >= 1
    decreases total - offset
  {
    match NextOffset(offset, pageSize, Some(total))
    case Some(next) => LastOffset(next, pageSize, total)
    case None => offset
  }

  /**
   * Following `next_offset` from an offset inside the collection ends on a
   * page that is still inside it and reaches its end: no record is skipped
   * and no page past the end is requested.
   */
  lemma {:induction false} LastPageCoversTotal(offset: int, pageSize: int, total: int)
    requires pageSize >= 1 && offset < total
    ensures var last := LastOffset(offset, pageSize, total);
      offset <= last < total <= last + pageSize
    decreases total - offset
  {
    if offset + pageSize < total {
      LastPageCoversTotal(offset + pageSize, pageSize, total);
    }
  }
}
