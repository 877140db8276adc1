/** How many frames page tables take: which tables a page needs, and when there are frames for pages and tables. */
module FrameCounts {
  import opened Paging

  /** The positions of the three tables below the root that lead to a page. */
  function TablesFor(page: nat): (ts: set<Node>) {
    {Toward(page, 1), Toward(page, 2), Toward(page, 3)}
  }

  lemma KnownTable(keys: set<Node>, n: Node)
    requires n in keys
    ensures keys + {n} == keys
  {
  }

  /** The tables toward a page, one at a time. */
  lemma TableCounts(keys: set<Node>, page: nat)
    ensures var k1 := keys + {Toward(page, 1)};
            var k2 := k1 + {Toward(page, 2)};
            && keys + TablesFor(page) == k2 + {Toward(page, 3)}
            && |k1| <= |k2| <= |keys + TablesFor(page)| <= |k2| + 1
            && (Toward(page, 1) !in keys ==> |k1| == |keys| + 1)
            && (Toward(page, 2) !in k1 ==> |k2| == |k1| + 1)
            && (Toward(page, 3) !in k2 ==> |keys + TablesFor(page)| == |k2| + 1)
            && |keys| <= |k1|
  {
    hide Toward;
    var k1 := keys + {Toward(page, 1)};
    var k2 := k1 + {Toward(page, 2)};
    assert keys + TablesFor(page) == k2 + {Toward(page, 3)};
    OneMore(keys, Toward(page, 1));
    OneMore(k1, Toward(page, 2));
    OneMore(k2, Toward(page, 3));
  }

  lemma OneMore(keys: set<Node>, n: Node)
    ensures |keys + {n}| == if n in keys then |keys| else |keys| + 1
  {
    if n in keys { assert keys + {n} == keys; }
  }

  lemma UnionCount(a: set<Node>, b: set<Node>)
    ensures |a| <= |a + b|
  {
    assert a + b == a + (b - a);
  }

  // ---------- a range of pages ----------

  /** The tables that lead to the pages of `[first, end)`. */
  ghost function RangeTables(first: nat, end: nat): (ts: set<Node>) {
    if end <= first then {} else RangeTables(first, end - 1) + TablesFor(end - 1)
  }

  lemma RangeStep(keys: set<Node>, first: nat, page: nat)
    requires first <= page
    ensures keys + RangeTables(first, page + 1) == keys + RangeTables(first, page) + TablesFor(page)
    ensures RangeTables(first, first) == {} && keys + {} == keys
  {
    hide TablesFor;
    assert RangeTables(first, page + 1) == RangeTables(first, page) + TablesFor(page);
  }

  lemma {:induction false} RangeGrows(keys: set<Node>, first: nat, page: nat, end: nat)
    requires first <= page <= end
    ensures |keys + RangeTables(first, page)| <= |keys + RangeTables(first, end)|
    decreases end
  {
    hide TablesFor;
    if page < end {
      RangeGrows(keys, first, page, end - 1);
      RangeStep(keys, first, end - 1);
      UnionCount(keys + RangeTables(first, end - 1), TablesFor(end - 1));
    }
  }

  /** With tables at `keys` and `free` frames left there are frames for more tables and for `pages` pages. */
  ghost predicate Enough(keys: set<Node>, free: nat, tables: set<Node>, pages: nat) {
    |keys + tables| + pages <= free + |keys|
  }

  /** Exactly the frames for those tables and pages were taken. */
  ghost predicate Took(keys: set<Node>, free: nat, keys': set<Node>, free': nat, tables: set<Node>, pages: nat) {
    keys' == keys + tables && free' + |keys'| + pages == free + |keys|
  }

  lemma TookNone(keys: set<Node>, free: nat, first: nat)
    ensures RangeTables(first, first) == {} && Took(keys, free, keys, free, {}, 0) && Enough(keys, free, {}, 0)
  {
    assert keys + {} == keys;
  }

  lemma TookEnough(keys: set<Node>, free: nat, keys': set<Node>, free': nat, tables: set<Node>, pages: nat)
    requires Took(keys, free, keys', free', tables, pages)
    ensures Enough(keys, free, tables, pages)
  {
  }

  lemma EnoughForOne(keys: set<Node>, free: nat, page: nat)
    ensures Enough(keys, free, TablesFor(page), 1) == (free > 0 && free - 1 + |keys| >= |keys + TablesFor(page)|)
  {
    hide TablesFor;
    UnionCount(keys, TablesFor(page));
  }

  lemma TookOne(keys: set<Node>, free: nat, keys': set<Node>, free': nat, page: nat)
    requires keys' == keys + TablesFor(page) && free > 0 && free' + |keys'| == free - 1 + |keys|
    ensures Took(keys, free, keys', free', TablesFor(page), 1)
  {
    hide TablesFor;
  }

  /** One page more. */
  lemma TookPage(keys: set<Node>, free: nat, mid: set<Node>, free': nat, last: set<Node>, free'': nat, first: nat,
                 page: nat)
    requires first <= page && Took(keys, free, mid, free', RangeTables(first, page), page - first)
    requires Took(mid, free', last, free'', TablesFor(page), 1)
    ensures Took(keys, free, last, free'', RangeTables(first, page + 1), page + 1 - first)
    ensures Enough(keys, free, RangeTables(first, page + 1), page + 1 - first)
  {
    RangeStep(keys, first, page);
    hide RangeTables, TablesFor;
  }

  lemma EnoughPage(keys: set<Node>, free: nat, mid: set<Node>, free': nat, first: nat, page: nat, end: nat)
    requires first <= page < end && Took(keys, free, mid, free', RangeTables(first, page), page - first)
    ensures Enough(keys, free, RangeTables(first, end), end - first) ==> Enough(mid, free', TablesFor(page), 1)
  {
    RangeStep(keys, first, page);
    RangeGrows(keys, first, page + 1, end);
    hide RangeTables, TablesFor;
  }
}
