/** The page arithmetic shared by the web pages and the server handlers:
    the number of pages of a result list and the offset of a page. */
module Paging {
  /** `Math.ceil(n / d)` for a positive page size, on integers. */
  function CeilDiv(n: int, d: int): (r: int)
    requires d > 0
    ensures (r - 1) * d < n <= r * d
    ensures n >= 0 ==> r >= 0
    ensures n == 0 ==> r == 0
    ensures n > 0 ==> r >= 1
  {
    -((-n) / d)
  }

  /** The items before page `page`: `(page - 1) * perPage`. */
  function Offset(page: int, perPage: int): int {
    (page - 1) * perPage
  }

  /** Every page from 1 to `CeilDiv(total, perPage)` starts within the
      list, and the page after the last starts at or beyond its end; so the
      pages exactly cover the list. */
  lemma PagesCover(total: nat, perPage: int, page: int)
    requires perPage > 0
    ensures 1 <= page <= CeilDiv(total, perPage) ==> 0 <= Offset(page, perPage) < total
    ensures page > CeilDiv(total, perPage) ==> Offset(page, perPage) >= total
  {
    var t := CeilDiv(total, perPage);
    if 1 <= page <= t {
      assert (page - 1) * perPage <= (t - 1) * perPage by {
        assert (t - 1) * perPage - (page - 1) * perPage == (t - page) * perPage;
      }
    }
    if page > t {
      assert (page - 1) * perPage >= t * perPage by {
        assert (page - 1) * perPage - t * perPage == (page - 1 - t) * perPage;
      }
    }
  }

  /** A non-negative multiple of a positive size is non-negative. */
  lemma MultipleSign(k: int, d: int)
    requires d > 0
    ensures k >= 0 ==> k * d >= 0
  {
  }

  /** Only one page count brackets a total. */
  lemma CeilUnique(n: int, d: int, a: int, b: int)
    requires d > 0
    requires (a - 1) * d < n <= a * d
    requires (b - 1) * d < n <= b * d
    ensures a <= b
  {
    var k := a - 1 - b;
    assert k * d == (a - 1) * d - b * d;
    MultipleSign(k, d);
  }

  /** The servers' `(total + perPage - 1) / perPage`: Go's division of a
      non-negative count, which truncates. */
  function TotalPages(total: nat, perPage: int): int
    requires perPage > 0
  {
    (total + perPage - 1) / perPage
  }

  /** It is the ceiling of `total / perPage`. */
  lemma TotalPagesIsCeil(total: nat, perPage: int)
    requires perPage > 0
    ensures TotalPages(total, perPage) == CeilDiv(total, perPage)
  {
    var t := TotalPages(total, perPage);
    var r := (total + perPage - 1) % perPage;
    assert t * perPage + r == total + perPage - 1 && 0 <= r < perPage;
    var c := CeilDiv(total, perPage);
    CeilUnique(total, perPage, t, c);
    CeilUnique(total, perPage, c, t);
  }
}
