/** Keyset pagination of the analysis list: newest first, by creation time and then run id. */
module Paging {
  import opened Domain
  import opened Rows

  /** The sort key of a row, and also a cursor: the last row of the page before. */
  datatype Key = Key(createdAt: Instant, runId: RunId)

  datatype Filter = Filter(
    installations: Option<set<int>>, repository: Option<string>, status: Option<Status>, category: Option<string>)

  predicate Selected(row: Row, f: Filter) {
    && (f.installations.Some? ==>
          row.record.installationId.Some? && row.record.installationId.value in f.installations.value)
    && (f.repository.Some? ==> row.record.repository == f.repository.value)
    && (f.status.Some? ==> row.status == f.status.value)
    && (f.category.Some? ==> row.category == f.category)
  }

  predicate ListedBefore(a: Key, b: Key) {
    a.createdAt > b.createdAt || (a.createdAt == b.createdAt && a.runId > b.runId)
  }

  function KeysOf(t: Table, f: Filter): set<Key> {
    set run | run in t && Selected(t[run], f) :: Key(t[run].record.createdAt, run)
  }

  /** The rows after a cursor. */
  function Beyond(keys: set<Key>, cursor: Option<Key>): set<Key> {
    if cursor.None? then keys else set k | k in keys && ListedBefore(cursor.value, k)
  }

  ghost predicate Descending(s: seq<Key>) {
    forall i, j | 0 <= i < j < |s| :: ListedBefore(s[i], s[j])
  }

  ghost predicate IsNewest(keys: set<Key>, key: Key) {
    key in keys && forall other <- keys :: other == key || ListedBefore(key, other)
  }

  lemma {:induction false} NewestExists(keys: set<Key>)
    requires keys != {}
    ensures exists key :: IsNewest(keys, key)
    decreases |keys|
  {
    var some := AnyOf(keys);
    var rest := keys - {some};
    if rest == {} {
      assert keys == {some};
      assert IsNewest(keys, some);
    } else {
      NewestExists(rest);
      var key :| IsNewest(rest, key);
      assert forall other <- keys :: other == some || other in rest;
      assert IsNewest(keys, key) || IsNewest(keys, some);
    }
  }

  ghost function Newest(keys: set<Key>): (key: Key)
    requires keys != {}
    ensures IsNewest(keys, key)
  {
    NewestExists(keys);
    var key :| IsNewest(keys, key);
    key
  }

  /** ORDER BY created_at DESC, run_id DESC */
  ghost function Sorted(keys: set<Key>): (s: seq<Key>)
    ensures |s| == |keys|
    decreases |keys|
  {
    if keys == {} then [] else [Newest(keys)] + Sorted(keys - {Newest(keys)})
  }

  lemma {:induction false} SortedLists(keys: set<Key>)
    ensures forall k :: k in Sorted(keys) <==> k in keys
    ensures Descending(Sorted(keys))
    decreases |keys|
  {
    if keys != {} { SortedLists(keys - {Newest(keys)}); }
  }

  ghost predicate Lists(s: seq<Key>, keys: set<Key>) {
    Descending(s) && forall k :: k in s <==> k in keys
  }

  lemma DropListed(s: seq<Key>, keys: set<Key>, n: nat, rest: set<Key>)
    requires Lists(s, keys) && 0 < n <= |s|
    requires forall k :: k in rest <==> k in keys && ListedBefore(s[n - 1], k)
    ensures Lists(s[n..], rest)
  {
    forall k
      ensures k in s[n..] <==> k in rest
    {
      if k in s[n..] {
        var i :| n <= i < |s| && s[i] == k;
        assert s[i] in keys;
      }
      if k in rest {
        assert k in s;
        var i :| 0 <= i < |s| && s[i] == k;
        assert n <= i && s[n..][i - n] == k;
      }
    }
  }

  lemma DropNewest(s: seq<Key>, keys: set<Key>, newest: Key)
    requires Lists(s, keys) && IsNewest(keys, newest)
    ensures s != [] && s[0] == newest && Lists(s[1..], keys - {newest})
  {
    assert newest in s;
    assert s[0] in keys;
    DropListed(s, keys, 1, keys - {newest});
  }

  /** The plain list is determined by its members and its order. */
  lemma {:induction false} SortedIsUnique(keys: set<Key>, s: seq<Key>)
    requires Lists(s, keys)
    ensures s == Sorted(keys)
    decreases |keys|
  {
    if s == [] {
      assert keys == {};
    } else {
      assert s[0] in keys;
      var newest := Newest(keys);
      DropNewest(s, keys, newest);
      SortedIsUnique(keys - {newest}, s[1..]);
      assert s == [newest] + s[1..];
    }
  }

  ghost function Rest(keys: set<Key>, cursor: Option<Key>): seq<Key> { Sorted(Beyond(keys, cursor)) }

  ghost function Page(keys: set<Key>, limit: nat, cursor: Option<Key>): seq<Key> {
    Rest(keys, cursor)[..Min(limit, |Rest(keys, cursor)|)]
  }

  ghost function NextCursor(keys: set<Key>, limit: nat, cursor: Option<Key>): Option<Key> {
    if |Rest(keys, cursor)| > limit && limit > 0 then Some(Page(keys, limit, cursor)[limit - 1]) else None
  }

  /** A cursor splits the plain list exactly where its page ended. */
  lemma NextCursorSplits(keys: set<Key>, limit: nat, cursor: Option<Key>)
    requires NextCursor(keys, limit, cursor).Some?
    ensures Rest(keys, NextCursor(keys, limit, cursor)) == Rest(keys, cursor)[limit..]
  {
    var before, next := Beyond(keys, cursor), NextCursor(keys, limit, cursor);
    var rest := Sorted(before);
    SortedLists(before);
    assert next == Some(rest[limit - 1]);
    assert rest[limit - 1] in before;
    DropListed(rest, before, limit, Beyond(keys, next));
    SortedIsUnique(Beyond(keys, next), rest[limit..]);
  }

  /** The pages obtained by following `next_cursor` to the end. */
  ghost function Drain(keys: set<Key>, limit: nat, cursor: Option<Key>): seq<Key>
    requires limit >= 1
    decreases |Rest(keys, cursor)|
  {
    var next := NextCursor(keys, limit, cursor);
    if next.None? then Page(keys, limit, cursor)
    else
      NextCursorSplits(keys, limit, cursor);
      Page(keys, limit, cursor) + Drain(keys, limit, next)
  }

  lemma {:induction false} DrainIsRest(keys: set<Key>, limit: nat, cursor: Option<Key>)
    requires limit >= 1
    ensures Drain(keys, limit, cursor) == Rest(keys, cursor)
    decreases |Rest(keys, cursor)|
  {
    var next := NextCursor(keys, limit, cursor);
    if next.Some? {
      NextCursorSplits(keys, limit, cursor);
      DrainIsRest(keys, limit, next);
    }
  }

  /** For every page size, following the cursors yields the whole filtered list in order: every
      selected row once, no gap and no repeat. */
  lemma PagesMakeTheList(t: Table, f: Filter, limit: nat)
    requires limit >= 1
    ensures var all := Drain(KeysOf(t, f), limit, None);
      && all == Sorted(KeysOf(t, f))
      && Descending(all)
      && (forall k :: k in all <==> k in KeysOf(t, f))
      && |all| == |KeysOf(t, f)|
  {
    DrainIsRest(KeysOf(t, f), limit, None);
    SortedLists(KeysOf(t, f));
  }

  // ---- rows inserted while paging ----

  /** Page i is read from tables[i]; the second component says whether the last page was reached. */
  ghost function DrainWhile(tables: seq<set<Key>>, limit: nat, cursor: Option<Key>): (seq<Key>, bool)
    decreases |tables|
  {
    if tables == [] then ([], false)
    else
      var page, next := Page(tables[0], limit, cursor), NextCursor(tables[0], limit, cursor);
      if next.None? then (page, true)
      else
        var (more, complete) := DrainWhile(tables[1..], limit, next);
        (page + more, complete)
  }

  ghost predicate OnlyInserts(tables: seq<set<Key>>) {
    forall i, j | 0 <= i < j < |tables| :: tables[i] <= tables[j]
  }

  lemma PageIsDescending(keys: set<Key>, limit: nat, cursor: Option<Key>)
    ensures Descending(Page(keys, limit, cursor))
    ensures forall k <- Page(keys, limit, cursor) :: k in Beyond(keys, cursor)
    ensures NextCursor(keys, limit, cursor).None? && limit >= 1 ==>
      forall k <- Beyond(keys, cursor) :: k in Page(keys, limit, cursor)
    ensures NextCursor(keys, limit, cursor).Some? ==>
      && (forall k <- Beyond(keys, cursor) ::
            k in Page(keys, limit, cursor) || ListedBefore(NextCursor(keys, limit, cursor).value, k))
      && (forall k <- Page(keys, limit, cursor) ::
            k == NextCursor(keys, limit, cursor).value || ListedBefore(k, NextCursor(keys, limit, cursor).value))
      && NextCursor(keys, limit, cursor).value in Beyond(keys, cursor)
  {
    var rest := Rest(keys, cursor);
    var n := Min(limit, |rest|);
    SortedLists(Beyond(keys, cursor));
    forall k | k in Beyond(keys, cursor)
      ensures k in rest[..n] || (n > 0 && ListedBefore(rest[n - 1], k)) || n == 0
    {
      var i :| 0 <= i < |rest| && rest[i] == k;
      if i < n { assert rest[..n][i] == k; }
    }
    forall k | k in rest[..n]
      ensures k in Beyond(keys, cursor) && (n > 0 ==> k == rest[n - 1] || ListedBefore(k, rest[n - 1]))
    {
      assert k in rest;
    }
  }

  lemma {:induction false} PagingFrom(tables: seq<set<Key>>, limit: nat, cursor: Option<Key>)
    requires limit >= 1 && OnlyInserts(tables)
    ensures var (all, complete) := DrainWhile(tables, limit, cursor);
      && Descending(all)
      && (cursor.Some? ==> forall k <- all :: ListedBefore(cursor.value, k))
      && (complete && tables != [] ==> forall k <- Beyond(tables[0], cursor) :: k in all)
    decreases |tables|
  {
    if tables != [] {
      var next := NextCursor(tables[0], limit, cursor);
      PageIsDescending(tables[0], limit, cursor);
      if next.Some? {
        PagingFrom(tables[1..], limit, next);
        var page := Page(tables[0], limit, cursor);
        var (more, complete) := DrainWhile(tables[1..], limit, next);
        PagesChain(page, more, next.value);
        if complete && tables[1..] != [] {
          assert tables[0] <= tables[1];
          forall k <- Beyond(tables[0], cursor)
            ensures k in page + more
          {
            if k !in page { assert k in Beyond(tables[1], next); }
          }
        }
      }
    }
  }

  lemma PagesChain(page: seq<Key>, more: seq<Key>, last: Key)
    requires Descending(page) && Descending(more)
    requires forall k <- page :: k == last || ListedBefore(k, last)
    requires forall k <- more :: ListedBefore(last, k)
    ensures Descending(page + more)
  {
    forall i, j | 0 <= i < j < |page + more|
      ensures ListedBefore((page + more)[i], (page + more)[j])
    {
      if i < |page| <= j {
        assert page[i] in page && more[j - |page|] in more;
      }
    }
  }

  /** While rows are only inserted, an unfiltered listing that reaches its end shows every row that
      was there from the start exactly once, and no row twice. */
  lemma InsertsDoNotDisturbPaging(tables: seq<set<Key>>, limit: nat, k: Key)
    requires limit >= 1 && OnlyInserts(tables) && tables != [] && k in tables[0]
    requires DrainWhile(tables, limit, None).1
    ensures var all := DrainWhile(tables, limit, None).0;
      && (exists i :: 0 <= i < |all| && all[i] == k)
      && (forall i, j | 0 <= i < j < |all| :: all[i] != all[j])
  {
    PagingFrom(tables, limit, None);
  }
}
