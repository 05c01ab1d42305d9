// Reading the audit log in pages: Export and List (internal/auditlog/auditlog.go).
module AuditPages {
  import opened AuditEvent
  import opened AuditLog

  /** Rows of the store: increasing positive IDs. */
  ghost predicate Table(rows: seq<Event>) { Ordered(rows) && forall i :: 0 <= i < |rows| ==> rows[i].id > 0 }

  lemma MatchesPositive(rows: seq<Event>, p: Event -> bool, before: int, after: int)
    requires Table(rows)
    ensures Ordered(Select(rows, p, before, after))
    ensures forall i :: 0 <= i < |Select(rows, p, before, after)| ==> Select(rows, p, before, after)[i].id > 0
  {
    SelectOrdered(rows, p, before, after);
    SelectIn(rows, p, before, after);
    var s := Select(rows, p, before, after);
    forall i | 0 <= i < |s|
      ensures s[i].id > 0
    {
      assert s[i] in s;
    }
  }

  ghost predicate NoneFails(s: seq<Event>, fails: Event -> bool) { forall e :: e in s ==> !fails(e) }

  /** The entries a callback is given: all of them, or up to the first it fails on. */
  ghost predicate Delivered(all: seq<Event>, fails: Event -> bool, out: seq<Event>, ok: bool) {
    && out <= all
    && (ok ==> out == all && NoneFails(out, fails))
    && (!ok ==> out != [] && fails(out[|out| - 1]) && NoneFails(out[..|out| - 1], fails))
  }

  /** The callback over one page. */
  method Deliver(list: seq<Event>, fails: Event -> bool) returns (out: seq<Event>, ok: bool)
    ensures Delivered(list, fails, out, ok)
  {
    var i := 0;
    while i < |list|
      invariant 0 <= i <= |list|
      invariant forall e :: e in list[..i] ==> !fails(e)
    {
      assert list[..i + 1] == list[..i] + [list[i]];
      i := i + 1;
      if fails(list[i - 1]) {
        assert list[..i][..i - 1] == list[..i - 1];
        return list[..i], false;
      }
    }
    assert list[..i] == list;
    return list, true;
  }

  lemma DeliveredPages(all: seq<Event>, fails: Event -> bool, before: seq<Event>, list: seq<Event>, out: seq<Event>, ok: bool)
    requires before <= all && list <= all[|before|..] && Delivered(list, fails, out, ok)
    requires NoneFails(before, fails)
    ensures before + out <= all
    ensures ok ==> NoneFails(before + out, fails) && out == list
    ensures !ok ==> Delivered(all, fails, before + out, false)
  {
    PagePrefix(all, before, list, |out|);
    assert out == list[..|out|];
    if !ok {
      assert (before + out)[..|before + out| - 1] == before + out[..|out| - 1];
    }
  }

  /**
   * Export: every matching entry once, oldest first, in pages of 500; it stops at the
   * first entry the callback fails on.
   */
  method Export(store: Store, p: Event -> bool, fails: Event -> bool) returns (out: seq<Event>, ok: bool)
    requires Table(store.rows)
    ensures Delivered(Select(store.rows, p, 0, 0), fails, out, ok)
  {
    ghost var all := Select(store.rows, p, 0, 0);
    out := [];
    var after := 0;
    while true
      invariant out <= all && Select(store.rows, p, 0, after) == all[|out|..]
      invariant NoneFails(out, fails)
      decreases |all| - |out|
    {
      var list := store.List(p, 0, after, true, WALK_BATCH);
      var given;
      given, ok := Deliver(list, fails);
      DeliveredPages(all, fails, out, list, given, ok);
      if !ok || |list| < WALK_BATCH { return out + given, ok; }
      after := list[|list| - 1].id;
      AfterPage(store.rows, p, out, list);
      out := out + given;
    }
  }

  lemma NextPage(rows: seq<Event>, p: Event -> bool, k: nat)
    requires Table(rows) && 0 < k <= |Select(rows, p, 0, 0)|
    ensures Select(rows, p, 0, Select(rows, p, 0, 0)[k - 1].id) == Select(rows, p, 0, 0)[k..]
  {
    MatchesPositive(rows, p, 0, 0);
    SelectResume(rows, p, 0, 0, k, Select(rows, p, 0, 0)[k - 1].id);
  }

  /** The cursor after a page that was given in full. */
  lemma AfterPage(rows: seq<Event>, p: Event -> bool, out: seq<Event>, list: seq<Event>)
    requires Table(rows) && list != [] && out + list <= Select(rows, p, 0, 0)
    ensures Select(rows, p, 0, list[|list| - 1].id) == Select(rows, p, 0, 0)[|out + list|..]
  {
    assert Select(rows, p, 0, 0)[|out + list| - 1] == (out + list)[|out + list| - 1];
    NextPage(rows, p, |out + list|);
  }

  lemma PagePrefix(all: seq<Event>, before: seq<Event>, list: seq<Event>, i: nat)
    requires before <= all && list <= all[|before|..] && i <= |list|
    ensures before + list[..i] <= all
  {
    assert all == before + all[|before|..];
    assert list[..i] <= all[|before|..];
  }

  /** The page size of List. */
  function PageLimit(limit: int): (n: nat)
    ensures 1 <= n <= 1000
  {
    if limit <= 0 then DEFAULT_LIST_LIMIT else if limit > MAX_LIST_LIMIT then MAX_LIST_LIMIT else limit
  }

  /** List: one page, newest first, and where the next one starts (0: nowhere). */
  method List(store: Store, p: Event -> bool, before: int, limit: int) returns (page: seq<Event>, next: int)
    requires Table(store.rows)
    ensures page <= Reverse(Select(store.rows, p, before, 0)) && |page| <= PageLimit(limit)
    ensures next == 0 <==> page == Reverse(Select(store.rows, p, before, 0))
    ensures next != 0 ==> |page| == PageLimit(limit) && next == page[|page| - 1].id && next > 0
    ensures next != 0 ==> Select(store.rows, p, next, 0) == Select(store.rows, p, before, 0)[..|Select(store.rows, p, before, 0)| - |page|]
  {
    var n := PageLimit(limit) + 1;
    var list := store.List(p, before, 0, false, n);
    page, next := list, 0;
    if |list| == n {
      page := list[..n - 1];
      next := page[n - 2].id;
      ghost var all := Select(store.rows, p, before, 0);
      MatchesPositive(store.rows, p, before, 0);
      assert page[n - 2] == all[|all| - 1 - (n - 2)];
      SelectBefore(store.rows, p, before, |all| - 1 - (n - 2));
    }
  }

  lemma ReverseSplit(s: seq<Event>, k: nat)
    requires k <= |s|
    ensures Reverse(s) == Reverse(s)[..k] + Reverse(s[..|s| - k])
  {
  }

  /** Taking a page off the entries left, newest first. */
  lemma {:induction false} FollowOn(left: seq<Event>, page: seq<Event>)
    requires page <= Reverse(left)
    ensures |page| <= |left| && Reverse(left) == page + Reverse(left[..|left| - |page|])
  {
    ReverseSplit(left, |page|);
    assert Reverse(left)[..|page|] == page;
  }

  /** Following NextBeforeID gives every matching entry once, newest first. */
  method FollowPages(store: Store, p: Event -> bool, limit: int) returns (out: seq<Event>)
    requires Table(store.rows)
    ensures out == Reverse(Select(store.rows, p, 0, 0))
  {
    ghost var all := Select(store.rows, p, 0, 0);
    var page, next := List(store, p, 0, limit);
    FollowOn(all, page);
    out := page;
    while next != 0
      invariant next >= 0 && |out| <= |all|
      invariant next == 0 ==> out == Reverse(all)
      invariant next != 0 ==> |out| > 0 && Select(store.rows, p, next, 0) == all[..|all| - |out|]
      invariant next != 0 ==> Reverse(all) == out + Reverse(all[..|all| - |out|])
      decreases |all| - |out| + if next == 0 then 0 else 1
    {
      ghost var left := all[..|all| - |out|];
      page, next := List(store, p, next, limit);
      FollowOn(left, page);
      assert left[..|left| - |page|] == all[..|all| - |out + page|];
      out := out + page;
    }
  }
}
