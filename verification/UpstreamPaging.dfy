/** An upstream list served in pages. */
module UpstreamPaging {
  import opened Numbers

  /** One answer: the menu hidden from the caller, any other refusal, or a page. */
  datatype Answer<T> = Soft404 | Failed | Page(rows: seq<T>, totalPages: nat)

  function PagesIn(n: nat, limit: nat): nat
    requires limit > 0
  {
    (n + limit - 1) / limit
  }

  /** Page `page`, counting from 1, of the fixed list `rows`. */
  function HonestAnswer<T>(rows: seq<T>, page: nat, limit: nat): Answer<T>
    requires page >= 1 && limit > 0
  {
    Page(rows[Min((page - 1) * limit, |rows|)..Min(page * limit, |rows|)], PagesIn(|rows|, limit))
  }

  /** Every page asked for is answered, and from one fixed list. */
  ghost predicate Honest<T(!new)>(answers: nat -> Answer<T>, rows: seq<T>, limit: nat)
    requires limit > 0
  {
    forall p: nat :: p >= 1 ==> answers(p) == HonestAnswer(rows, p, limit)
  }

  /** What an honest page adds to the rows scanned so far, and when it is the last. */
  lemma HonestPage<T>(rows: seq<T>, page: nat, limit: nat, scanned: nat)
    requires page >= 1 && limit > 0 && scanned == (page - 1) * limit <= |rows|
    ensures var Page(got, totalPages) := HonestAnswer(rows, page, limit);
      && scanned + |got| == Min(page * limit, |rows|)
      && rows[..scanned + |got|] == rows[..scanned] + got
      && (|got| < limit ==> scanned + |got| == |rows|)
      && (page >= totalPages <==> page * limit >= |rows|)
  {
    assert page * limit == scanned + limit;
    PageIsLast(|rows|, page, limit);
  }

  lemma PageIsLast(n: nat, page: nat, limit: nat)
    requires limit > 0
    ensures page >= PagesIn(n, limit) <==> page * limit >= n
  {
    var q := PagesIn(n, limit);
    assert q * limit >= n > (q - 1) * limit || n == 0;
    if page >= q {
      assert page * limit >= q * limit;
    } else {
      assert page * limit <= (q - 1) * limit;
    }
  }
}
