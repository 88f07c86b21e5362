/** The pages of the admin listing cut the ordered user table into pieces that fit together exactly. */
module Pagination {
  import opened Model
  import opened Arithmetic
  import opened Directory
  import opened AdminService
  import opened UserService

  lemma CeilIs(n: nat, limit: PageLimit)
    ensures (Ceil(n, limit) - 1) * limit < n <= Ceil(n, limit) * limit || n == Ceil(n, limit) == 0
  {
    var c := Ceil(n, limit);
    assert n + limit - 1 == c * limit + (n + limit - 1) % limit;
    assert (c - 1) * limit == c * limit - limit;
    if n == 0 { DivIs(limit - 1, limit, 0, limit - 1); }
  }

  lemma CeilCovers(n: nat, limit: PageLimit)
    ensures 0 <= Ceil(n, limit) && n <= Ceil(n, limit) * limit
  {
    CeilIs(n, limit);
    MulMonotone(limit, 0, Ceil(n, limit));
  }

  lemma PageVersusCeil(n: nat, page: PageNumber, limit: PageLimit)
    ensures page * limit < n <==> page < Ceil(n, limit)
    ensures page > Ceil(n, limit) ==> (page - 1) * limit >= n
  {
    CeilIs(n, limit);
    var c := Ceil(n, limit);
    if page < c { MulMonotone(limit, page, c - 1); } else { MulMonotone(limit, c, page); }
    if page > c { MulMonotone(limit, c, page - 1); }
  }

  /** `hasNextPage` holds exactly on the pages before the last; on every page after it there is nothing. */
  lemma FlagsAreExact(a: Accounts, page: PageNumber, limit: PageLimit)
    requires ListingExact(a)
    ensures var view := PageQuery(a, page, limit);
            && (view.hasNextPage <==> page < view.totalPages)
            && (view.hasPreviousPage <==> page > 1)
            && (page > view.totalPages ==> view.users == [])
  {
    PageVersusCeil(|a.users|, page, limit);
    ListingHasAllUsers(a);
  }

  lemma ListingHasAllUsers(a: Accounts)
    requires ListingExact(a)
    ensures |a.newestFirst| == |a.users|
  {
    DistinctHasItsSize(a.newestFirst);
    assert Elements(a.newestFirst) == a.users.Keys;
  }

  function Elements<T>(xs: seq<T>): set<T> {
    set x | x in xs
  }

  lemma {:induction false} DistinctHasItsSize<T>(xs: seq<T>)
    requires forall i, j | 0 <= i < j < |xs| :: xs[i] != xs[j]
    ensures |Elements(xs)| == |xs|
  {
    if xs == [] {
    } else {
      DistinctHasItsSize(xs[1..]);
      assert Elements(xs) == {xs[0]} + Elements(xs[1..]);
    }
  }

  /** Pages 1 to `n`, one after the other. */
  function FirstPages<T>(rows: seq<T>, n: nat, limit: PageLimit): seq<T> {
    if n == 0 then [] else FirstPages(rows, n - 1, limit) + Window(rows, n, limit)
  }

  lemma {:induction false} FirstPagesArePrefix<T>(rows: seq<T>, n: nat, limit: PageLimit)
    ensures FirstPages(rows, n, limit) == if n * limit <= |rows| then rows[..n * limit] else rows
  {
    if n == 0 {
    } else {
      FirstPagesArePrefix(rows, n - 1, limit);
      assert n * limit == (n - 1) * limit + limit;
    }
  }

  lemma {:induction false} RowsSplit(a: Accounts, xs: seq<UserId>, ys: seq<UserId>)
    ensures Rows(a, xs + ys) == Rows(a, xs) + Rows(a, ys)
  {
    if xs == [] {
      assert xs + ys == ys;
    } else {
      assert (xs + ys)[1..] == xs[1..] + ys;
      RowsSplit(a, xs[1..], ys);
    }
  }

  lemma {:induction false} RowsAreAll(a: Accounts, ids: seq<UserId>)
    requires forall u | u in ids :: u in a.users
    ensures |Rows(a, ids)| == |ids|
    ensures forall i | 0 <= i < |ids| :: Rows(a, ids)[i] == AdminViewOf(ids[i], a.users[ids[i]])
  {
    if ids == [] {
    } else {
      RowsAreAll(a, ids[1..]);
    }
  }

  /** The answers to pages 1 to `n`, one after the other. */
  function Answers(a: Accounts, n: nat, limit: PageLimit): seq<AdminView> {
    if n == 0 then [] else Answers(a, n - 1, limit) + PageQuery(a, n, limit).users
  }

  lemma {:induction false} AnswersAreRows(a: Accounts, n: nat, limit: PageLimit)
    ensures Answers(a, n, limit) == Rows(a, FirstPages(a.newestFirst, n, limit))
  {
    if n == 0 {
    } else {
      AnswersAreRows(a, n - 1, limit);
      RowsSplit(a, FirstPages(a.newestFirst, n - 1, limit), Window(a.newestFirst, n, limit));
    }
  }

  lemma EnoughPages(a: Accounts, limit: PageLimit, n: nat)
    requires ListingExact(a) && |a.newestFirst| <= n * limit
    ensures Answers(a, n, limit) == Rows(a, a.newestFirst)
  {
    AnswersAreRows(a, n, limit);
    FirstPagesArePrefix(a.newestFirst, n, limit);
    assert a.newestFirst[..|a.newestFirst|] == a.newestFirst;
  }

  /** Pages 1 to `totalPages` together are the whole ordered listing: every user once, nobody else. */
  lemma PagesPartitionTheListing(a: Accounts, limit: PageLimit, n: nat)
    requires ListingExact(a) && n == PageQuery(a, 1, limit).totalPages
    ensures |Answers(a, n, limit)| == |a.users| == |a.newestFirst|
    ensures forall i | 0 <= i < |a.newestFirst| ::
              Answers(a, n, limit)[i] == AdminViewOf(a.newestFirst[i], a.users[a.newestFirst[i]])
  {
    ListingHasAllUsers(a);
    assert |a.newestFirst| <= n * limit by { CeilCovers(|a.users|, limit); }
    EnoughPages(a, limit, n);
    RowsAreAll(a, a.newestFirst);
  }
}
