/** Creating, mapping, translating and destroying user address spaces. */
module AddressSpaces {
  import opened Options
  import opened Paging
  import opened Ownership
  import opened FrameCounts
  import opened PageAllocators

  /** The flags of a mapping. */
  datatype Flags = Flags(writable: bool, user: bool, huge: bool, other: nat)

  function PageEntry(phys: nat, flags: Flags): Pte {
    Pte(true, flags.writable, flags.user, flags.huge, phys / 4096, flags.other)
  }

  /** The four table indices of an address. */
  function IndexAt(virt: nat, level: nat): (i: nat)
    requires level < 4
    ensures i < 512
  {
    match level
    case 0 => virt / 0x80_0000_0000 % 512
    case 1 => virt / 0x4000_0000 % 512
    case 2 => virt / 0x20_0000 % 512
    case 3 => virt / 4096 % 512
  }

  lemma TowardIs(page: nat)
    ensures Toward(page, 4) == Node(4, page) && Toward(page, 3) == Node(3, page / 512)
    ensures Toward(page, 2) == Node(2, page / 512 / 512) && Toward(page, 1) == Node(1, page / 512 / 512 / 512)
    ensures Toward(page, 0) == Node(0, page / 512 / 512 / 512 / 512)
  {
    assert Toward(page, 3) == Up(Toward(page, 4));
    assert Toward(page, 2) == Up(Toward(page, 3));
    assert Toward(page, 1) == Up(Toward(page, 2));
    assert Toward(page, 0) == Up(Toward(page, 1));
  }

  lemma Shifts(virt: nat)
    ensures virt / 0x80_0000_0000 == virt / 4096 / 512 / 512 / 512
    ensures virt / 0x4000_0000 == virt / 4096 / 512 / 512
    ensures virt / 0x20_0000 == virt / 4096 / 512
    ensures virt < 0x8000_0000_0000 ==>
              virt / 4096 < 256 * 512 * 512 * 512 && virt / 4096 / 512 < 256 * 512 * 512
              && virt / 4096 / 512 / 512 < 256 * 512
              && virt / 4096 / 512 / 512 / 512 < 256 && virt / 4096 / 512 / 512 / 512 / 512 == 0
  {
  }

  /** The four indices, highest level first, and the offset make up the address. */
  lemma IndexDigits(virt: nat)
    requires virt < USER_VIRT_MAX
    ensures virt ==
              (((IndexAt(virt, 0) * 512 + IndexAt(virt, 1)) * 512 + IndexAt(virt, 2)) * 512 + IndexAt(virt, 3)) * 4096
                    + virt % 4096
  {
    Shifts(virt);
  }

  /** Mapping a page and looking up an address: on that page the new frame with the address's offset, if the flags allow
      the access; on every other page what was there before. */
  lemma MappedReads(pages: map<nat, Pte>, virt: nat, phys: nat, flags: Flags, v: nat, write: bool)
    requires virt % 4096 == 0 && phys % 4096 == 0 && virt < USER_VIRT_MAX
    ensures Lookup(pages[virt / 4096 := PageEntry(phys, flags)], v, write)
         == if virt <= v < virt + 4096 then
              (if flags.user && (write ==> flags.writable) then Some(phys + (v - virt)) else None)
            else Lookup(pages, v, write)
    ensures Lookup(map[], v, write) == None
  {
  }

  /** The indices of a user address are the slots on the way to its page. */
  lemma IndexIsSlot(virt: nat, level: nat)
    requires virt < USER_VIRT_MAX && level < 4
    ensures NodeOk(Toward(virt / 4096, level + 1)) && IndexAt(virt, level) == Slot(Toward(virt / 4096, level + 1))
    ensures Up(Toward(virt / 4096, level + 1)) == Toward(virt / 4096, level)
    ensures Toward(virt / 4096, 0) == ROOT && Toward(virt / 4096, 4) == PageNode(virt / 4096)
  {
    hide Toward;
    Shifts(virt);
    TowardIs(virt / 4096);
    if level == 0 {} else if level == 1 {} else if level == 2 {} else { assert level == 3; }
  }

  // ---------- what a change of memory leaves alone ----------

  /** Frames that are no table of the space, and the kernel half of its root, are as they were. */
  ghost predicate Elsewhere(mem: Memory, mem': Memory, sp: Space) {
    && |mem'| == |mem| && sp.root < |mem|
    && (forall f: nat :: f < |mem| && Unlinked(sp, f) ==> mem'[f] == mem[f])
    && (forall i :: 256 <= i < 512 ==> mem'[sp.root][i] == mem[sp.root][i])
  }

  /** `sp'` has at least the tables of `sp`. */
  ghost predicate Grows(sp: Space, sp': Space) {
    && sp'.root == sp.root && forall n :: n in sp.at ==> n in sp'.at && sp'.at[n] == sp.at[n]
  }

  lemma GrowsTrans(a: Space, b: Space, c: Space)
    requires Grows(a, b) && Grows(b, c)
    ensures Grows(a, c)
  {
  }

  lemma ElsewhereTrans(a: Memory, b: Memory, c: Memory, sp: Space, sp': Space)
    requires Elsewhere(a, b, sp) && Elsewhere(b, c, sp') && Grows(sp, sp')
    ensures Elsewhere(a, c, sp')
  {
    forall f: nat | f < |a| && Unlinked(sp', f) ensures c[f] == a[f] {
      assert Unlinked(sp, f);
    }
  }

  lemma PutElsewhere(mem: Memory, sp: Space, n: Node, e: Pte)
    requires NodesOk(mem, sp) && Injective(sp) && NodeOk(n) && Reached(mem, sp, n)
    ensures Elsewhere(mem, PutEntry(mem, sp, n, e), sp)
  {
    UpOk(n);
    NodeParts(mem, sp, ROOT);
    assert Up(n) == ROOT ==> Slot(n) < 256;
    hide NodesOk, NodeOk, Slot, Up;
    assert sp.at[Up(n)] == sp.root ==> Up(n) == ROOT by {
      RootAt(mem, sp);
    }
  }

  lemma RootAt(mem: Memory, sp: Space)
    requires NodesOk(mem, sp)
    ensures ROOT in sp.at && sp.at[ROOT] == sp.root < |mem|
  {
    NodeParts(mem, sp, ROOT);
  }

  /** A well-formed space whose tables are all allocated. */
  ghost predicate SpaceOk(mem: Memory, free: set<nat>, sp: Space) {
    TreeOk(mem, sp) && Tables(sp) !! free
  }

  lemma SpaceParts(mem: Memory, free: set<nat>, sp: Space)
    requires SpaceOk(mem, free, sp)
    ensures TreeOk(mem, sp) && NodesOk(mem, sp) && Injective(sp) && Tables(sp) !! free
    ensures sp.root < |mem| && ROOT in sp.at && sp.at[ROOT] == sp.root
  {
    TreeParts(mem, sp);
    RootAt(mem, sp);
    hide TreeOk, NodesOk, Injective, Tables;
  }

  lemma SpaceIs(mem: Memory, free: set<nat>, sp: Space)
    ensures SpaceOk(mem, free, sp) == (TreeOk(mem, sp) && Tables(sp) !! free)
  {
    hide TreeOk, Tables;
  }

  lemma NothingDone(mem: Memory, sp: Space)
    requires sp.root < |mem|
    ensures Elsewhere(mem, mem, sp) && Grows(sp, sp)
  {
  }

  /** The entry at a reached position, and what it says. */
  lemma EntryReads(mem: Memory, sp: Space, n: Node)
    requires TreeOk(mem, sp) && NodeOk(n) && Reached(mem, sp, n)
    ensures Up(n) in sp.at && sp.at[Up(n)] < |mem| && EntryAt(mem, sp, n) == mem[sp.at[Up(n)]][Slot(n)]
    ensures EntryOk(mem, sp, n) && UserAbove(mem, sp, n)
    ensures 1 <= n.level <= 3 ==> EntryAt(mem, sp, n).present == (n in sp.at)
    ensures 1 <= n.level <= 3 && n in sp.at ==>
              EntryAt(mem, sp, n).frame == sp.at[n] && EntryAt(mem, sp, n).writable && !EntryAt(mem, sp, n).huge
  {
    TreeParts(mem, sp);
    hide TreeOk, NodesOk, Injective, NodeOk, Up, Slot;
  }

  lemma TablesGrow(sp: Space, n: Node, f: nat)
    requires n !in sp.at
    ensures Tables(WithTable(sp, n, f)) == Tables(sp) + {f}
  {
    var sp' := WithTable(sp, n, f);
    forall x ensures x in Tables(sp') <==> x in Tables(sp) + {f} {
      if x in Tables(sp') {
        var m :| m in sp'.at && sp'.at[m] == x;
      }
      if x in Tables(sp) {
        var m :| m in sp.at && sp.at[m] == x;
        assert m in sp'.at && sp'.at[m] == x;
      }
      assert n in sp'.at && sp'.at[n] == f;
    }
  }

  lemma FreshUnlinked(sp: Space, free: set<nat>, f: nat)
    requires Tables(sp) !! free && f in free
    ensures Unlinked(sp, f)
  {
  }

  lemma PutIs(mem: Memory, sp: Space, n: Node, e: Pte)
    requires Reached(mem, sp, n) && Up(n) in sp.at && sp.at[Up(n)] < |mem|
    ensures PutEntry(mem, sp, n, e) == SetEntry(mem, sp.at[Up(n)], Slot(n), e)
  {
    hide Up, Slot, SetEntry;
  }

  lemma PutReads(mem: Memory, sp: Space, n: Node, e: Pte)
    requires Reached(mem, sp, n)
    ensures Reached(PutEntry(mem, sp, n, e), sp, n) && EntryAt(PutEntry(mem, sp, n, e), sp, n) == e
  {
    hide Up, Slot;
  }

  lemma UserLinkIs(mem: Memory, sp: Space, n: Node)
    requires Reached(mem, sp, n)
    ensures UserLink(mem, sp, n) == EntryAt(mem, sp, n).user
  {
    hide Reached, EntryAt;
  }

  lemma GrowsTable(sp: Space, n: Node, f: nat)
    requires n !in sp.at
    ensures Grows(sp, WithTable(sp, n, f)) && WithTable(sp, n, f).pages == sp.pages
    ensures WithTable(sp, n, f).root == sp.root
    ensures n in WithTable(sp, n, f).at && WithTable(sp, n, f).at[n] == f
  {
  }

  /** Linking a freshly allocated, zeroed table. */
  lemma LinkFresh(mem: Memory, sp: Space, n: Node, f: nat, user: bool, free: set<nat>)
    requires SpaceOk(mem, free, sp) && NodeOk(n) && 1 <= n.level <= 3 && Reached(mem, sp, n) && n !in sp.at
    requires f in free && f < |mem| && (user && n.level > 1 ==> UserLink(mem, sp, Up(n)))
    ensures Up(n) in sp.at && sp.at[Up(n)] < |mem|
    ensures var mem' := SetEntry(mem[f := EmptyTable()], sp.at[Up(n)], Slot(n), LinkEntry(f, user));
            var sp' := WithTable(sp, n, f);
            && SpaceOk(mem', free - {f}, sp') && Grows(sp, sp') && sp'.pages == sp.pages && Elsewhere(mem, mem', sp')
            && (free - {f}) + Tables(sp') == free + Tables(sp) && n in sp'.at && sp'.at[n] == f
            && (user ==> UserLink(mem', sp', n))
  {
    hide *;
    SpaceParts(mem, free, sp);
    FreshUnlinked(sp, free, f);
    EntryReads(mem, sp, n);
    var mem1, sp' := mem[f := EmptyTable()], WithTable(sp, n, f);
    ZeroTree(mem, sp, f);
    ZeroElsewhere(mem, sp, f, n);
    if n.level > 1 {
      ReachedUp(mem, sp, n);
      ZeroElsewhere(mem, sp, f, Up(n));
      UserLinkIs(mem, sp, Up(n));
      UserLinkIs(mem1, sp, Up(n));
    }
    LinkTree(mem1, sp, n, f, user);
    var mem' := PutEntry(mem1, sp, n, LinkEntry(f, user));
    PutIs(mem1, sp, n, LinkEntry(f, user));
    TablesGrow(sp, n, f);
    GrowsTable(sp, n, f);
    SpaceIs(mem', free - {f}, sp');
    TreeParts(mem1, sp);
    PutElsewhere(mem1, sp, n, LinkEntry(f, user));
    ZeroedElsewhere(mem, mem', sp, n, f);
    PutReads(mem1, sp, n, LinkEntry(f, user));
    WithTableReach(mem', sp, n, f, n);
    UserLinkIs(mem', sp', n);
    assert LinkEntry(f, user).user == user by { LinkEntryIs(f, user); }
  }

  lemma LinkEntryIs(f: nat, user: bool)
    ensures LinkEntry(f, user) == Pte(true, true, user, false, f, 0)
  {
  }

  lemma ZeroedElsewhere(mem: Memory, mem': Memory, sp: Space, n: Node, f: nat)
    requires f < |mem| && Unlinked(sp, f) && n !in sp.at && Elsewhere(mem[f := EmptyTable()], mem', sp)
    requires ROOT in sp.at && sp.at[ROOT] == sp.root
    ensures Elsewhere(mem, mem', WithTable(sp, n, f))
  {
    var sp' := WithTable(sp, n, f);
    forall x: nat | x < |mem| && Unlinked(sp', x) ensures mem'[x] == mem[x] {
      assert sp'.at[n] == f;
      assert forall m :: m in sp.at ==> m in sp'.at && sp'.at[m] == sp.at[m];
      assert Unlinked(sp, x);
    }
  }

  /** Opening an existing link to user accesses. */
  lemma OpenLink(mem: Memory, sp: Space, n: Node, free: set<nat>)
    requires SpaceOk(mem, free, sp) && NodeOk(n) && 1 <= n.level <= 3 && Reached(mem, sp, n) && n in sp.at
    requires n.level > 1 ==> UserLink(mem, sp, Up(n))
    ensures Up(n) in sp.at && sp.at[Up(n)] < |mem|
    ensures var mem' := SetEntry(mem, sp.at[Up(n)], Slot(n), mem[sp.at[Up(n)]][Slot(n)].(user := true));
            SpaceOk(mem', free, sp) && Elsewhere(mem, mem', sp) && UserLink(mem', sp, n)
  {
    hide *;
    SpaceParts(mem, free, sp);
    EntryReads(mem, sp, n);
    var e := EntryAt(mem, sp, n).(user := true);
    AddUserTree(mem, sp, n);
    PutIs(mem, sp, n, e);
    PutElsewhere(mem, sp, n, e);
    PutReads(mem, sp, n, e);
    UserLinkIs(PutEntry(mem, sp, n, e), sp, n);
    SpaceIs(PutEntry(mem, sp, n, e), free, sp);
  }

  /** How a mapping ends; `Panicked` stands for the kernel panic when memory is exhausted. */
  datatype Outcome = Mapped | Refused | Panicked

  lemma PageEntryIs(phys: nat, flags: Flags)
    ensures PageEntry(phys, flags) == Pte(true, flags.writable, flags.user, flags.huge, phys / 4096, flags.other)
  {
  }

  lemma ReachedAt(mem: Memory, sp: Space, n: Node)
    requires NodesOk(mem, sp) && n.level > 0 && Up(n) in sp.at
    ensures Reached(mem, sp, n)
  {
    NodeParts(mem, sp, Up(n));
    hide NodesOk, Up, NodeOk;
  }

  /** Writing a page's entry in an existing last-level table. */
  lemma SetLeaf(mem: Memory, sp: Space, page: nat, e: Pte, free: set<nat>)
    requires SpaceOk(mem, free, sp) && NodeOk(PageNode(page)) && Reached(mem, sp, PageNode(page)) && e.present
    requires e.user ==> UserLink(mem, sp, Up(PageNode(page)))
    ensures Up(PageNode(page)) in sp.at && sp.at[Up(PageNode(page))] < |mem|
    ensures var mem' := SetEntry(mem, sp.at[Up(PageNode(page))], Slot(PageNode(page)), e);
            var sp' := WithPage(sp, page, e);
            && SpaceOk(mem', free, sp') && Elsewhere(mem, mem', sp') && Grows(sp, sp') && Tables(sp') == Tables(sp)
            && sp'.pages == sp.pages[page := e]
  {
    hide *;
    SpaceParts(mem, free, sp);
    EntryReads(mem, sp, PageNode(page));
    SetPageTree(mem, sp, page, e);
    PutIs(mem, sp, PageNode(page), e);
    PutElsewhere(mem, sp, PageNode(page), e);
    var mem', sp' := PutEntry(mem, sp, PageNode(page), e), WithPage(sp, page, e);
    SpaceIs(mem', free, sp');
    WithPageKeeps(mem, mem', sp, page, e);
  }

  lemma WithPageKeeps(mem: Memory, mem': Memory, sp: Space, page: nat, e: Pte)
    requires Elsewhere(mem, mem', sp)
    ensures var sp' := WithPage(sp, page, e);
            Tables(sp') == Tables(sp) && Grows(sp, sp') && Elsewhere(mem, mem', sp') && sp'.pages == sp.pages[page := e]
  {
    var sp' := WithPage(sp, page, e);
    assert forall f :: Unlinked(sp', f) == Unlinked(sp, f);
  }

  lemma LookupIs(pages: map<nat, Pte>, virt: nat, write: bool)
    ensures Lookup(pages, virt, write)
         == if virt < USER_VIRT_MAX && virt / 4096 in pages && pages[virt / 4096].user
               && (write ==> pages[virt / 4096].writable)
            then Some(pages[virt / 4096].frame * 4096 + virt % 4096) else None
  {
  }

  lemma LeafReads(mem: Memory, sp: Space, page: nat)
    requires TreeOk(mem, sp) && NodeOk(PageNode(page)) && Reached(mem, sp, PageNode(page))
    ensures EntryAt(mem, sp, PageNode(page)).present == (page in sp.pages)
    ensures page in sp.pages ==> EntryAt(mem, sp, PageNode(page)) == sp.pages[page]
  {
    TreeParts(mem, sp);
    hide TreeOk, NodesOk, Injective, NodeOk, Reached, EntryAt;
    assert EntryOk(mem, sp, PageNode(page));
  }

  lemma MappedReach(mem: Memory, sp: Space, page: nat)
    requires NodesOk(mem, sp) && page in sp.pages
    ensures NodeOk(PageNode(page)) && Reached(mem, sp, PageNode(page))
  {
    hide NodeOk, Reached;
    assert LeafNode(mem, sp, page);
  }

  /** A page that a user may access is reached through present user entries all the way down. */
  lemma {:induction false} UserPath(mem: Memory, sp: Space, page: nat, l: nat)
    requires TreeOk(mem, sp) && 1 <= l <= 4 && page in sp.pages && sp.pages[page].user
    ensures NodeOk(Toward(page, l)) && Reached(mem, sp, Toward(page, l))
    ensures EntryAt(mem, sp, Toward(page, l)).present && EntryAt(mem, sp, Toward(page, l)).user
    decreases 4 - l
  {
    hide TreeOk, NodesOk, Injective, NodeOk, Reached, EntryAt, EntryOk, Up;
    TreeParts(mem, sp);
    if l == 4 {
      MappedReach(mem, sp, page);
      LeafReads(mem, sp, page);
    } else {
      UserPath(mem, sp, page, l + 1);
      var n := Toward(page, l + 1);
      ReachedUp(mem, sp, n);
      UpOk(n);
      assert UserAbove(mem, sp, n);
      EntryReads(mem, sp, Up(n));
      TowardLevels(page, l);
    }
  }

  lemma TowardLevels(page: nat, l: nat)
    requires l < 4
    ensures Toward(page, l) == Up(Toward(page, l + 1))
  {
  }

  // ---------- creating and destroying ----------

  function NewSpace(root: nat): Space {
    Space(root, map[ROOT := root], map[])
  }

  lemma NewSpaceOk(mem: Memory, root: nat, free: set<nat>)
    requires root < |mem| && root !in free && forall i :: 0 <= i < 256 ==> mem[root][i] == ABSENT
    ensures SpaceOk(mem, free, NewSpace(root)) && Tables(NewSpace(root)) == {root}
  {
    var sp := NewSpace(root);
    assert NodesOk(mem, sp);
    assert Injective(sp);
    forall n: Node | NodeOk(n) && Reached(mem, sp, n) ensures EntryOk(mem, sp, n) && UserAbove(mem, sp, n) {
      assert Up(n) == ROOT && n.level == 1 && Slot(n) == n.key < 256;
    }
    TreeIs(mem, sp);
    assert sp.at[ROOT] == root;
  }

  ghost predicate FramesUnder(s: set<nat>, max: nat) {
    forall f :: f in s ==> f < max
  }

  /** The tables at and below `n` still hold what they held at the start. */
  ghost predicate SameBelow(start: Memory, mem: Memory, sp: Space, n: Node) {
    |mem| == |start| && forall m :: m in sp.at && Under(m, n) ==> sp.at[m] < |mem| && mem[sp.at[m]] == start[sp.at[m]]
  }

  lemma FramesUnderIs(s: set<nat>, max: nat)
    requires FramesUnder(s, max)
    ensures forall f :: f in s ==> f < max
  {
  }

  lemma PageAddress(f: nat)
    ensures f * 4096 % 4096 == 0 && f * 4096 / 4096 == f
  {
  }

  lemma RootIs()
    ensures ROOT == Node(0, 0)
  {
  }

  lemma FanoutIs(n: Node)
    ensures Fanout(n) == if n.level == 0 then 256 else 512
  {
  }

  lemma SameAll(mem: Memory, sp: Space, n: Node)
    requires NodesOk(mem, sp)
    ensures SameBelow(mem, mem, sp, n)
  {
    hide Under, NodesOk;
    forall m | m in sp.at ensures sp.at[m] < |mem| {
      NodeParts(mem, sp, m);
    }
  }

  lemma TableStart(start: Memory, mem: Memory, sp: Space, n: Node)
    requires TreeOk(start, sp) && n in sp.at && |mem| == |start| && SameBelow(start, mem, sp, n)
    ensures sp.at[n] < |mem| && mem[sp.at[n]] == start[sp.at[n]]
  {
    UnderSelf(n);
    hide Under;
  }

  lemma KidsNone(sp: Space, n: Node, free: set<nat>)
    requires n.level < 4
    ensures free + BelowKids(sp, n, 0) == free && BelowKids(sp, n, 0) == {}
  {
  }

  lemma KidsStep(sp: Space, n: Node, i: nat, free: set<nat>)
    requires n.level < 4
    ensures Child(n, i).level <= 4
    ensures free + BelowKids(sp, n, i) + Below(sp, Child(n, i)) == free + BelowKids(sp, n, i + 1)
    ensures BelowKids(sp, n, i) <= BelowKids(sp, n, i + 1) && Below(sp, Child(n, i)) <= BelowKids(sp, n, i + 1)
  {
    hide Below;
  }

  /** The frames below `n` are its own and its children's. */
  lemma BelowSplit(sp: Space, n: Node, free: set<nat>, kernel: nat, max: nat)
    requires Exclusive(sp) && n.level <= 3 && n in sp.at && Below(sp, n) !! free + {kernel}
    requires FramesUnder(Below(sp, n), max)
    ensures sp.at[n] !in free + BelowKids(sp, n, Fanout(n)) && sp.at[n] < max && sp.at[n] != kernel
    ensures free + BelowKids(sp, n, Fanout(n)) + {sp.at[n]} == free + Below(sp, n)
    ensures BelowKids(sp, n, Fanout(n)) <= Below(sp, n) && sp.at[n] in Below(sp, n)
  {
    FanoutIs(n);
    ParentApart(sp, n, Fanout(n));
    hide Exclusive, BelowKids, Fanout;
    assert Has(sp, n) && FrameAt(sp, n) == sp.at[n];
  }

  lemma KidApart(sp: Space, n: Node, i: nat, free: set<nat>, kernel: nat, max: nat)
    requires Exclusive(sp) && n.level <= 3 && n in sp.at && i < Fanout(n) <= 512
    requires Below(sp, n) !! free + {kernel} && FramesUnder(Below(sp, n), max)
    ensures Child(n, i).level <= 4 && FramesUnder(Below(sp, Child(n, i)), max)
    ensures Below(sp, Child(n, i)) !! free + BelowKids(sp, n, i) + {sp.at[n], kernel}
    ensures Below(sp, Child(n, i)) !! BelowKids(sp, n, i)
  {
    BelowSplit(sp, n, free, kernel, max);
    KidsApart(sp, n, i);
    KidsGrow(sp, n, i, Fanout(n));
    ChildLevel(n, i);
    hide Exclusive, BelowKids, Fanout, Child, Below;
    assert Has(sp, n) && FrameAt(sp, n) == sp.at[n];
  }

  /** Before child `i` is freed, its tables and its entry are untouched. */
  lemma KidReady(start: Memory, mem0: Memory, mem: Memory, sp: Space, n: Node, i: nat)
    requires TreeOk(start, sp) && Exclusive(sp) && n in sp.at && n.level <= 3 && i < 512 && sp.at[n] < |mem|
    requires |mem| == |mem0| == |start| && SameBelow(start, mem0, sp, n)
    requires forall f: nat :: f < |mem| && f != sp.at[n] && f !in BelowKids(sp, n, i) ==> mem[f] == mem0[f]
    ensures SameBelow(start, mem, sp, Child(n, i))
  {
    TreeParts(start, sp);
    KidsApart(sp, n, i);
    ChildLevel(n, i);
    hide TreeOk, Exclusive, BelowKids, Below, Under, Child, NodesOk, Injective;
    assert Has(sp, n) && FrameAt(sp, n) == sp.at[n];
    forall m | m in sp.at && Under(m, Child(n, i)) ensures sp.at[m] < |mem| && mem[sp.at[m]] == start[sp.at[m]] {
      NodeParts(start, sp, m);
      UnderChild(m, n, i);
      UnderInBelow(start, sp, m, Child(n, i));
    }
  }

  /** What entry `i` of a table leads to. */
  lemma ChildEntry(start: Memory, sp: Space, n: Node, i: nat)
    requires TreeOk(start, sp) && n in sp.at && n.level <= 3 && i < Fanout(n)
    ensures sp.at[n] < |start| && Child(n, i).level == n.level + 1
    ensures var e, c := start[sp.at[n]][i], Child(n, i);
            && (!e.present ==> Below(sp, c) == {})
            && (e.present && n.level == 3 ==> Below(sp, c) == {e.frame})
            && (e.present && n.level < 3 ==> c in sp.at && sp.at[c] == e.frame && !e.huge)
  {
    TreeParts(start, sp);
    NodeParts(start, sp, n);
    var c := Child(n, i);
    ChildUp(n, i);
    ChildOk(n, i);
    ReachedIs(start, sp, c);
    hide TreeOk, NodesOk, Injective, NodeOk, Child, BelowKids, UserAbove;
    ChildLevel(n, i);
    assert EntryOk(start, sp, c);
  }

  lemma SetEntryIs(mem: Memory, f: nat, i: nat, e: Pte)
    requires f < |mem| && i < 512
    ensures var mem' := SetEntry(mem, f, i, e);
            && |mem'| == |mem| && (forall x: nat :: x < |mem| && x != f ==> mem'[x] == mem[x])
            && (forall j :: 0 <= j < 512 && j != i ==> mem'[f][j] == mem[f][j])
  {
  }

  /** Only frames of `s` and the first `count` entries of `frame` changed. */
  ghost predicate OnlyWithin(mem: Memory, mem': Memory, s: set<nat>, frame: nat, count: nat) {
    && |mem'| == |mem| && frame < |mem|
    && (forall f: nat :: f < |mem| && f != frame && f !in s ==> mem'[f] == mem[f])
    && (forall j :: count <= j < 512 ==> mem'[frame][j] == mem[frame][j])
  }

  lemma OnlyWithinIs(mem: Memory, mem': Memory, s: set<nat>, frame: nat, count: nat)
    ensures OnlyWithin(mem, mem', s, frame, count)
         == (|mem'| == |mem| && frame < |mem|
             && (forall f: nat :: f < |mem| && f != frame && f !in s ==> mem'[f] == mem[f])
             && (forall j :: count <= j < 512 ==> mem'[frame][j] == mem[frame][j]))
  {
  }

  lemma CountUnion(a: set<nat>, b: set<nat>)
    requires a !! b
    ensures |a + b| == |a| + |b|
  {
  }

  /** A space that shares no frame with anyone: its frames are allocated, distinct and its own. */
  ghost predicate Private(mem: Memory, free: set<nat>, max: nat, kernel: nat, sp: Space) {
    && SpaceOk(mem, free, sp) && PagesApart(sp) && Owned(sp) !! free + {kernel} && FramesUnder(Owned(sp), max)
  }

  lemma PrivateParts(mem: Memory, free: set<nat>, max: nat, kernel: nat, sp: Space)
    requires Private(mem, free, max, kernel, sp)
    ensures SpaceOk(mem, free, sp) && TreeOk(mem, sp) && PagesApart(sp) && Exclusive(sp)
    ensures Owned(sp) !! free + {kernel} && FramesUnder(Owned(sp), max) && sp.root in Owned(sp) && sp.root in Tables(sp)
  {
    SpaceParts(mem, free, sp);
    ExclusiveIs(mem, sp);
    assert sp.root in Tables(sp);
    hide SpaceOk, TreeOk, PagesApart, Exclusive, Tables, FramesUnder, NodesOk, Injective, PageFrames;
  }

  lemma FreshTree(mem: Memory, sp: Space, f: nat, free: set<nat>)
    requires SpaceOk(mem, free, sp) && f in free && f < |mem|
    ensures SpaceOk(mem[f := EmptyTable()], free - {f}, sp) && Unlinked(sp, f)
  {
    hide *;
    SpaceParts(mem, free, sp);
    FreshUnlinked(sp, free, f);
    ZeroTree(mem, sp, f);
    SpaceIs(mem[f := EmptyTable()], free - {f}, sp);
  }

  lemma GrowsIs(sp: Space, sp': Space)
    requires Grows(sp, sp')
    ensures sp'.root == sp.root && Tables(sp) <= Tables(sp')
  {
    forall f | f in Tables(sp) ensures f in Tables(sp') {
      var n :| n in sp.at && sp.at[n] == f;
      assert n in sp'.at && sp'.at[n] == f;
    }
  }

  lemma ElsewhereIs(mem: Memory, mem': Memory, sp: Space)
    requires Elsewhere(mem, mem', sp)
    ensures |mem'| == |mem| && forall f: nat :: f < |mem| && f !in Tables(sp) ==> mem'[f] == mem[f]
  {
  }

  /** The page frames after one more page was mapped. */
  lemma PageFramesGrow(sp: Space, sp': Space, page: nat, e: Pte)
    requires page !in sp.pages && sp'.pages == sp.pages[page := e]
    ensures PageFrames(sp') == PageFrames(sp) + {e.frame} && sp'.pages.Keys == sp.pages.Keys + {page}
  {
    forall x | x in PageFrames(sp') ensures x in PageFrames(sp) + {e.frame} {
      var p :| p in sp'.pages && sp'.pages[p].frame == x;
    }
    forall x | x in PageFrames(sp) + {e.frame} ensures x in PageFrames(sp') {
      if x in PageFrames(sp) {
        var p :| p in sp.pages && sp.pages[p].frame == x;
        assert p in sp'.pages && sp'.pages[p].frame == x;
      } else {
        assert page in sp'.pages && sp'.pages[page].frame == x;
      }
    }
  }

  /** New tables and the new page come from the free set, so no frame is shared afterwards either. */
  lemma PagesStayApart(sp: Space, sp': Space, page: nat, e: Pte, free: set<nat>)
    requires PagesApart(sp) && PageFrames(sp) !! free && page !in sp.pages && sp'.pages == sp.pages[page := e]
    requires Tables(sp') <= Tables(sp) + (free - {e.frame}) && e.frame in free && e.frame !in Tables(sp)
    ensures PagesApart(sp')
  {
    forall p | p in sp'.pages ensures Unlinked(sp', sp'.pages[p].frame) {
      if p != page { assert Unlinked(sp, sp.pages[p].frame) && sp.pages[p].frame in PageFrames(sp); }
    }
    forall p, q | p in sp'.pages && q in sp'.pages && sp'.pages[p].frame == sp'.pages[q].frame ensures p == q {
      assert p != page ==> sp.pages[p].frame in PageFrames(sp);
      assert q != page ==> sp.pages[q].frame in PageFrames(sp);
    }
  }

  lemma FreshKeeps(mem0: Memory, mem1: Memory, mem: Memory, sp: Space, sp': Space, free0: set<nat>, free: set<nat>,
                   max: nat, kernel: nat,
                   page: nat, f: nat, flags: Flags)
    requires Private(mem0, free0, max, kernel, sp) && f in free0 && f < |mem0| && mem1 == mem0[f := EmptyTable()]
    requires SpaceOk(mem, free, sp') && free + Tables(sp') == (free0 - {f}) + Tables(sp) && Tables(sp) <= Tables(sp')
    requires page !in sp.pages && sp'.pages == sp.pages[page := PageEntry(f * 4096, flags)]
    requires |mem| == |mem1| && forall x: nat :: x < |mem1| && x !in Tables(sp') ==> mem[x] == mem1[x]
    requires kernel !in free0 && forall x :: x in free0 ==> x < max
    ensures Private(mem, free, max, kernel, sp') && sp'.pages.Keys == sp.pages.Keys + {page}
    ensures free + Owned(sp') == free0 + Owned(sp)
    ensures forall x: nat :: x < |mem| && x !in Owned(sp') ==> mem[x] == mem0[x]
  {
    hide *;
    PrivateParts(mem0, free0, max, kernel, sp);
    SpaceParts(mem, free, sp');
    PageAddress(f);
    PageEntryIs(f * 4096, flags);
    var e := PageEntry(f * 4096, flags);
    PageFramesGrow(sp, sp', page, e);
    OwnedIs(sp);
    OwnedIs(sp');
    PagesStayApart(sp, sp', page, e, free0);
    FramesUnderIs(Owned(sp), max);
    PrivateFrom(mem, free, max, kernel, sp');
  }

  lemma OwnedIs(sp: Space)
    ensures Owned(sp) == Tables(sp) + PageFrames(sp)
  {
    hide Tables, PageFrames;
  }

  lemma PrivateFrom(mem: Memory, free: set<nat>, max: nat, kernel: nat, sp: Space)
    requires SpaceOk(mem, free, sp) && PagesApart(sp) && Owned(sp) !! free + {kernel}
    requires forall x :: x in Owned(sp) ==> x < max
    ensures Private(mem, free, max, kernel, sp)
  {
    hide SpaceOk, PagesApart, Owned;
  }

  /** A request to map a fresh frame. */
  datatype Request = Request(virt: nat, flags: Flags)

  ghost predicate DistinctPages(reqs: seq<Request>) {
    forall i, j :: 0 <= i < j < |reqs| ==> reqs[i].virt / 4096 != reqs[j].virt / 4096
  }

  /** The pages the first `n` requests name. */
  ghost function RequestedPages(reqs: seq<Request>, n: nat): set<nat>
    requires n <= |reqs|
  {
    if n == 0 then {} else RequestedPages(reqs, n - 1) + {reqs[n - 1].virt / 4096}
  }

  lemma {:induction false} NotYetMapped(reqs: seq<Request>, n: nat, i: nat)
    requires DistinctPages(reqs) && n <= i < |reqs|
    ensures reqs[i].virt / 4096 !in RequestedPages(reqs, n)
  {
    if n > 0 { NotYetMapped(reqs, n - 1, i); }
  }

  lemma RequestedStep(reqs: seq<Request>, n: nat)
    requires n < |reqs|
    ensures RequestedPages(reqs, n + 1) == RequestedPages(reqs, n) + {reqs[n].virt / 4096}
  {
  }

  lemma RequestedNone(reqs: seq<Request>)
    ensures RequestedPages(reqs, 0) == {}
  {
  }

  /** A new space owns its root alone. */
  lemma FirstPrivate(mem: Memory, free: set<nat>, max: nat, kernel: nat, sp: Space)
    requires SpaceOk(mem, free, sp) && sp.pages == map[] && Tables(sp) == {sp.root} && sp.root != kernel
    requires sp.root < max
    ensures Private(mem, free, max, kernel, sp) && Owned(sp) == {sp.root}
  {
    SpaceParts(mem, free, sp);
    hide SpaceOk, TreeOk, NodesOk, Injective, Tables;
    assert PageFrames(sp) == {};
  }

  // ---------- counting tables ----------

  lemma WithTableKeys(sp: Space, n: Node, f: nat)
    requires n !in sp.at
    ensures WithTable(sp, n, f).at.Keys == sp.at.Keys + {n} && |sp.at.Keys + {n}| == |sp.at.Keys| + 1
  {
    assert WithTable(sp, n, f).at.Keys == sp.at.Keys + {n};
  }

  lemma WithPageTables(sp: Space, page: nat, e: Pte)
    ensures WithPage(sp, page, e).at == sp.at
  {
  }

  /** The tables that the first `n` requests need, the root included. */
  ghost function TablesNeeded(reqs: seq<Request>, n: nat): set<Node>
    requires n <= |reqs|
  {
    if n == 0 then {ROOT} else TablesNeeded(reqs, n - 1) + TablesFor(reqs[n - 1].virt / 4096)
  }

  lemma NeededStep(reqs: seq<Request>, n: nat)
    requires n < |reqs|
    ensures TablesNeeded(reqs, n + 1) == TablesNeeded(reqs, n) + TablesFor(reqs[n].virt / 4096)
  {
  }

  lemma NeededNone(reqs: seq<Request>)
    ensures TablesNeeded(reqs, 0) == {ROOT} && |{ROOT}| == 1
  {
  }

  lemma {:induction false} NeededGrows(reqs: seq<Request>, n: nat, m: nat)
    requires n <= m <= |reqs|
    ensures |TablesNeeded(reqs, n)| <= |TablesNeeded(reqs, m)|
    decreases m
  {
    if n < m {
      NeededGrows(reqs, n, m - 1);
      UnionCount(TablesNeeded(reqs, m - 1), TablesFor(reqs[m - 1].virt / 4096));
    }
  }

  /** Every address is that of a page. */
  predicate PageAligned(reqs: seq<Request>) {
    forall i :: 0 <= i < |reqs| ==> reqs[i].virt % 4096 == 0
  }

  lemma AlignedStep(reqs: seq<Request>, n: nat)
    requires n < |reqs|
    ensures PageAligned(reqs[..n + 1]) <==> PageAligned(reqs[..n]) && reqs[n].virt % 4096 == 0
    ensures PageAligned(reqs) ==> reqs[n].virt % 4096 == 0
  {
    assert reqs[..n + 1] == reqs[..n] + [reqs[n]];
  }

  lemma AlignedNone(reqs: seq<Request>)
    ensures PageAligned(reqs[..0]) && reqs[..|reqs|] == reqs
  {
  }

  /** Frames outside `free` hold what they held. */
  ghost predicate KeptOutside(mem: Memory, mem': Memory, free: set<nat>) {
    |mem'| == |mem| && forall f: nat :: f < |mem| && f !in free ==> mem'[f] == mem[f]
  }

  lemma KeptMore(a: Memory, b: Memory, c: Memory, free: set<nat>, owned: set<nat>)
    requires KeptOutside(a, b, free) && owned <= free && KeptOutside(b, c, owned)
    ensures KeptOutside(a, c, free)
  {
  }

  lemma KeptIs(mem: Memory, mem': Memory, free: set<nat>)
    requires |mem'| == |mem|
    ensures KeptOutside(mem, mem', free) == (forall f: nat :: f < |mem| && f !in free ==> mem'[f] == mem[f])
  {
  }

  /** The memory and page-table state; `kernelRoot` is the kernel's root frame and `current` the loaded one. */
  class Vmm {
    const pmm: PageAllocator
    const kernelRoot: nat
    var mem: Memory
    var current: nat

    ghost predicate Valid()
      reads this, pmm, pmm.bitmap
    {
      pmm.Valid() && pmm.maxIndex <= |mem| && kernelRoot < |mem| && kernelRoot !in pmm.Free()
    }

    lemma ValidIs()
      ensures Valid() == (pmm.Valid() && pmm.maxIndex <= |mem| && kernelRoot < |mem| && kernelRoot !in pmm.Free())
    {
    }

    constructor (pmm: PageAllocator, mem: Memory, kernelRoot: nat)
      requires pmm.Valid() && pmm.maxIndex <= |mem| && kernelRoot < |mem| && kernelRoot !in pmm.Free()
      ensures Valid() && this.pmm == pmm && this.mem == mem && this.kernelRoot == kernelRoot && current == kernelRoot
    {
      this.pmm, this.mem, this.kernelRoot, this.current := pmm, mem, kernelRoot, kernelRoot;
    }

    /** A zeroed page; none when memory is exhausted. */
    method AllocFrame() returns (f: Option<nat>)
      requires Valid()
      modifies this`mem, pmm, pmm.bitmap
      ensures Valid() && |mem| == |old(mem)| && pmm.maxIndex == old(pmm.maxIndex)
      ensures f.None? <==> old(pmm.Free()) == {}
      ensures f.Some? ==> f.value in old(pmm.Free()) && f.value < |mem| && pmm.Free() == old(pmm.Free()) - {f.value}
                          && mem == old(mem)[f.value := EmptyTable()]
      ensures f.None? ==> mem == old(mem) && pmm.Free() == old(pmm.Free())
      ensures if f.Some? then pmm.freeCount == old(pmm.freeCount) - 1 else pmm.freeCount == old(pmm.freeCount) == 0
    {
      pmm.CountIs();
      f := pmm.AllocPage();
      pmm.CountIs();
      if f.Some? {
        mem := mem[f.value := EmptyTable()];
      }
    }

    /** The table for position `n`, made on demand and open to user accesses if asked. */
    method NextLevel(ghost sp: Space, ghost n: Node, table: nat, index: nat, user: bool)
      returns (next: Option<nat>, ghost sp': Space)
      requires Valid() && SpaceOk(mem, pmm.Free(), sp) && NodeOk(n) && 1 <= n.level <= 3 && Reached(mem, sp, n)
      requires table == sp.at[Up(n)] && index == Slot(n)
      requires user && n.level > 1 ==> UserLink(mem, sp, Up(n))
      modifies this`mem, pmm, pmm.bitmap
      ensures Valid() && SpaceOk(mem, pmm.Free(), sp') && Grows(sp, sp') && sp'.pages == sp.pages
      ensures Elsewhere(old(mem), mem, sp') && pmm.maxIndex == old(pmm.maxIndex)
      ensures pmm.Free() + Tables(sp') == old(pmm.Free()) + Tables(sp)
      ensures next.None? ==> pmm.Free() == {}
      ensures next.None? <==> n !in sp.at && old(pmm.freeCount) == 0
      ensures sp'.at.Keys == if next.Some? then sp.at.Keys + {n} else sp.at.Keys
      ensures pmm.freeCount + |sp'.at.Keys| == old(pmm.freeCount) + |sp.at.Keys|
      ensures next.Some? ==> n in sp'.at && next.value == sp'.at[n] && (user ==> UserLink(mem, sp', n))
    {
      hide *;
      ValidIs();
      SpaceParts(mem, pmm.Free(), sp);
      EntryReads(mem, sp, n);
      NothingDone(mem, sp);
      var entry := mem[table][index];
      sp' := sp;
      if !entry.present {
        var f := AllocFrame();
        if f.None? {
          return None, sp;
        }
        LinkFresh(old(mem), sp, n, f.value, user, old(pmm.Free()));
        LinkEntryIs(f.value, user);
        mem := SetEntry(mem, table, index, Pte(true, true, user, false, f.value, 0));
        sp' := WithTable(sp, n, f.value);
        WithTableKeys(sp, n, f.value);
        next := Some(f.value);
      } else {
        next := Some(entry.frame);
        KnownTable(sp.at.Keys, n);
        if user {
          OpenLink(mem, sp, n, pmm.Free());
          mem := SetEntry(mem, table, index, entry.(user := true));
        }
      }
      ValidIs();
    }

    /** The last-level table for a page, with the tables that lead to it made on demand. */
    method LastTable(ghost sp: Space, root: nat, virt: nat, user: bool) returns (pt: Option<nat>, ghost sp': Space)
      requires Valid() && SpaceOk(mem, pmm.Free(), sp) && root == sp.root && virt < USER_VIRT_MAX
      modifies this`mem, pmm, pmm.bitmap
      ensures Valid() && SpaceOk(mem, pmm.Free(), sp') && Grows(sp, sp') && sp'.pages == sp.pages
      ensures Elsewhere(old(mem), mem, sp') && pmm.maxIndex == old(pmm.maxIndex)
      ensures pmm.Free() + Tables(sp') == old(pmm.Free()) + Tables(sp)
      ensures pt.None? ==> pmm.Free() == {}
      ensures pt.None? <==> old(pmm.freeCount) + |sp.at.Keys| < |sp.at.Keys + TablesFor(virt / 4096)|
      ensures pmm.freeCount + |sp'.at.Keys| == old(pmm.freeCount) + |sp.at.Keys|
      ensures pt.Some? ==> sp'.at.Keys == sp.at.Keys + TablesFor(virt / 4096)
      ensures var n := Toward(virt / 4096, 3);
              pt.Some? ==> n in sp'.at && pt.value == sp'.at[n] && (user ==> UserLink(mem, sp', n))
    {
      hide *;
      SpaceParts(mem, pmm.Free(), sp);
      ghost var page := virt / 4096;
      IndexIsSlot(virt, 0);
      IndexIsSlot(virt, 1);
      IndexIsSlot(virt, 2);
      ReachedAt(mem, sp, Toward(page, 1));
      TableCounts(sp.at.Keys, page);
      var pdpt, pd;
      ghost var sp1, sp2;
      pdpt, sp1 := NextLevel(sp, Toward(page, 1), root, IndexAt(virt, 0), user);
      if pdpt.None? {
        return None, sp1;
      }
      ghost var mem1 := mem;
      SpaceParts(mem, pmm.Free(), sp1);
      ReachedAt(mem, sp1, Toward(page, 2));
      pd, sp2 := NextLevel(sp1, Toward(page, 2), pdpt.value, IndexAt(virt, 1), user);
      GrowsTrans(sp, sp1, sp2);
      ElsewhereTrans(old(mem), mem1, mem, sp1, sp2);
      if pd.None? {
        return None, sp2;
      }
      ghost var mem2 := mem;
      SpaceParts(mem, pmm.Free(), sp2);
      ReachedAt(mem, sp2, Toward(page, 3));
      pt, sp' := NextLevel(sp2, Toward(page, 3), pd.value, IndexAt(virt, 2), user);
      GrowsTrans(sp, sp2, sp');
      ElsewhereTrans(old(mem), mem2, mem, sp2, sp');
    }

    /** Maps a page of a user address space; unaligned addresses are refused, and the kernel panics exactly when there
        are fewer free frames than missing tables. */
    method MapPage(ghost sp: Space, root: nat, virt: nat, phys: nat, flags: Flags)
      returns (r: Outcome, ghost sp': Space)
      requires Valid() && SpaceOk(mem, pmm.Free(), sp) && root == sp.root && virt < USER_VIRT_MAX
      modifies this`mem, pmm, pmm.bitmap
      ensures Valid() && SpaceOk(mem, pmm.Free(), sp') && Grows(sp, sp') && Elsewhere(old(mem), mem, sp')
      ensures pmm.Free() + Tables(sp') == old(pmm.Free()) + Tables(sp) && pmm.maxIndex == old(pmm.maxIndex)
      ensures r.Refused? <==> virt % 4096 != 0 || phys % 4096 != 0
      ensures r.Refused? ==> mem == old(mem) && sp' == sp && pmm.Free() == old(pmm.Free())
      ensures r.Panicked? ==> pmm.Free() == {}
      ensures r.Panicked? <==>
                && virt % 4096 == 0 && phys % 4096 == 0
                && old(pmm.freeCount) + |sp.at.Keys| < |sp.at.Keys + TablesFor(virt / 4096)|
      ensures pmm.freeCount + |sp'.at.Keys| == old(pmm.freeCount) + |sp.at.Keys|
      ensures r.Mapped? ==> sp'.at.Keys == sp.at.Keys + TablesFor(virt / 4096)
      ensures sp'.pages == if r.Mapped? then sp.pages[virt / 4096 := PageEntry(phys, flags)] else sp.pages
    {
      hide *;
      SpaceParts(mem, pmm.Free(), sp);
      NothingDone(mem, sp);
      sp' := sp;
      if virt % 4096 != 0 || phys % 4096 != 0 {
        return Refused, sp;
      }
      ghost var page := virt / 4096;
      IndexIsSlot(virt, 3);
      var pt;
      ghost var sp3;
      pt, sp3 := LastTable(sp, root, virt, flags.user);
      if pt.None? {
        return Panicked, sp3;
      }
      ghost var mem3 := mem;
      SpaceParts(mem, pmm.Free(), sp3);
      ReachedAt(mem, sp3, PageNode(page));
      PageEntryIs(phys, flags);
      SetLeaf(mem, sp3, page, PageEntry(phys, flags), pmm.Free());
      ValidIs();
      mem := SetEntry(mem, pt.value, IndexAt(virt, 3), PageEntry(phys, flags));
      sp' := WithPage(sp3, page, PageEntry(phys, flags));
      WithPageTables(sp3, page, PageEntry(phys, flags));
      GrowsTrans(sp, sp3, sp');
      ElsewhereTrans(old(mem), mem3, mem, sp3, sp');
      r := Mapped;
      ValidIs();
    }

    /** Walks the tables for a user access. */
    method Translate(ghost sp: Space, root: nat, virt: nat, write: bool) returns (r: Option<nat>)
      requires TreeOk(mem, sp) && root == sp.root
      ensures r == Lookup(sp.pages, virt, write)
    {
      hide *;
      LookupIs(sp.pages, virt, write);
      if virt >= USER_VIRT_MAX {
        return None;
      }
      TreeParts(mem, sp);
      RootAt(mem, sp);
      ghost var page := virt / 4096;
      IndexIsSlot(virt, 0);
      var table := root;
      for level := 0 to 4
        invariant level <= 3 ==> Toward(page, level) in sp.at && table == sp.at[Toward(page, level)] < |mem|
        invariant level <= 3
      {
        IndexIsSlot(virt, level);
        ghost var n := Toward(page, level + 1);
        ReachedAt(mem, sp, n);
        EntryReads(mem, sp, n);
        var entry := mem[table][IndexAt(virt, level)];
        if page in sp.pages && sp.pages[page].user { UserPath(mem, sp, page, level + 1); }
        if level == 3 { LeafReads(mem, sp, page); }
        if !entry.present || !entry.user {
          return None;
        }
        if write && !entry.writable {
          return None;
        }
        if level == 3 {
          return Some(entry.frame * 4096 + virt % 4096);
        }
        if entry.huge {
          return None;
        }
        NodeParts(mem, sp, n);
        table := entry.frame;
      }
      r := None;
    }

    /** A new address space: an empty user half and the kernel's upper half. */
    method Create() returns (root: Option<nat>, ghost sp: Space)
      requires Valid()
      modifies this`mem, pmm, pmm.bitmap
      ensures Valid() && |mem| == |old(mem)| && pmm.maxIndex == old(pmm.maxIndex)
      ensures root.None? ==> old(pmm.Free()) == {} && mem == old(mem) && pmm.Free() == {}
      ensures root.None? <==> old(pmm.freeCount) == 0
      ensures root.Some? ==> sp.at.Keys == {ROOT} && pmm.freeCount == old(pmm.freeCount) - 1
      ensures root.Some? ==>
                && sp.root == root.value && sp.pages == map[] && Tables(sp) == {root.value}
                && root.value in old(pmm.Free()) && pmm.Free() == old(pmm.Free()) - {root.value}
                && SpaceOk(mem, pmm.Free(), sp) && root.value < |mem| && kernelRoot < |mem|
                && mem == old(mem)[root.value := mem[root.value]]
                && (forall i :: 256 <= i < 512 ==> mem[root.value][i] == mem[kernelRoot][i])
    {
      ValidIs();
      sp := Space(0, map[], map[]);
      root := AllocFrame();
      if root.None? {
        return;
      }
      FillRoot(root.value);
      sp := NewSpace(root.value);
      NewSpaceOk(mem, root.value, pmm.Free());
    }

    /** Clears the user half of a root table and copies the kernel half. */
    method FillRoot(f: nat)
      requires f < |mem| && kernelRoot < |mem| && f != kernelRoot
      modifies this`mem
      ensures |mem| == |old(mem)| && mem == old(mem)[f := mem[f]]
      ensures forall i :: 0 <= i < 256 ==> mem[f][i] == ABSENT
      ensures forall i :: 256 <= i < 512 ==> mem[f][i] == mem[kernelRoot][i]
    {
      ghost var before := mem;
      for i := 0 to 256
        invariant |mem| == |before| && mem == before[f := mem[f]]
        invariant forall j :: 0 <= j < i ==> mem[f][j] == ABSENT
      {
        mem := SetEntry(mem, f, i, ABSENT);
      }
      for i := 256 to 512
        invariant |mem| == |before| && mem == before[f := mem[f]]
        invariant forall j :: 0 <= j < 256 ==> mem[f][j] == ABSENT
        invariant forall j :: 256 <= j < i ==> mem[f][j] == mem[kernelRoot][j]
      {
        mem := SetEntry(mem, f, i, mem[kernelRoot][i]);
      }
    }

    /** Frees what entry `i` of a table leads to, and clears the entry. */
    method FreeEntry(ghost sp: Space, ghost n: Node, level: nat, frame: nat, i: nat, ghost start: Memory)
      returns (ok: bool, freed: nat)
      requires Valid() && TreeOk(start, sp) && Exclusive(sp) && n in sp.at && n.level == level <= 3
      requires frame == sp.at[n] && i < Fanout(n)
      requires |mem| == |start| && frame < |mem| && mem[frame][i] == start[frame][i]
      requires SameBelow(start, mem, sp, Child(n, i))
      requires Below(sp, Child(n, i)) !! pmm.Free() + {frame, kernelRoot}
      requires FramesUnder(Below(sp, Child(n, i)), pmm.maxIndex)
      modifies this`mem, pmm, pmm.bitmap
      ensures Valid() && ok && pmm.maxIndex == old(pmm.maxIndex) && |mem| == |start|
      ensures pmm.Free() == old(pmm.Free()) + Below(sp, Child(n, i))
      ensures freed == pmm.freeCount - old(pmm.freeCount)
      ensures forall f: nat :: f < |mem| && f != frame && f !in Below(sp, Child(n, i)) ==> mem[f] == old(mem)[f]
      ensures forall j :: 0 <= j < 512 && j != i ==> mem[frame][j] == old(mem)[frame][j]
      decreases 4 - level, 0
    {
      hide *;
      ValidIs();
      ok, freed := true, 0;
      ghost var c := Child(n, i);
      FanoutIs(n);
      ChildEntry(start, sp, n, i);
      FramesUnderIs(Below(sp, c), pmm.maxIndex);
      var entry := mem[frame][i];
      if entry.present {
        if level == 3 {
          PageAddress(entry.frame);
          ok := pmm.FreePage(entry.frame * 4096);
          freed := 1;
        } else if level > 0 && entry.huge {
          ok := false;
        } else {
          ok, freed := FreeTable(sp, c, level + 1, entry.frame, start);
        }
        SetEntryIs(mem, frame, i, ABSENT);
        ValidIs();
        mem := SetEntry(mem, frame, i, ABSENT);
        ValidIs();
      }
    }

    /** Frees what the first `count` entries of a table lead to. */
    method FreeEntries(ghost sp: Space, ghost n: Node, level: nat, frame: nat, count: nat, ghost start: Memory)
      returns (ok: bool, freed: nat)
      requires Valid() && TreeOk(start, sp) && Exclusive(sp) && n in sp.at && n.level == level <= 3
      requires frame == sp.at[n] && count == Fanout(n)
      requires |mem| == |start| && frame < |mem| && SameBelow(start, mem, sp, n)
      requires Below(sp, n) !! pmm.Free() + {kernelRoot} && FramesUnder(Below(sp, n), pmm.maxIndex)
      modifies this`mem, pmm, pmm.bitmap
      ensures Valid() && ok && pmm.maxIndex == old(pmm.maxIndex) && |mem| == |start|
      ensures pmm.Free() == old(pmm.Free()) + BelowKids(sp, n, count)
      ensures freed == pmm.freeCount - old(pmm.freeCount)
      ensures OnlyWithin(old(mem), mem, BelowKids(sp, n, count), frame, count)
      decreases 4 - level, 1
    {
      hide *;
      ok, freed := true, 0;
      ghost var free0, mem0 := pmm.Free(), mem;
      TableStart(start, mem, sp, n);
      KidsNone(sp, n, free0);
      FanoutIs(n);
      for i := 0 to count
        invariant Valid() && ok && pmm.maxIndex == old(pmm.maxIndex) && |mem| == |start|
        invariant pmm.Free() == free0 + BelowKids(sp, n, i) && freed == pmm.freeCount - old(pmm.freeCount)
        invariant forall f: nat :: f < |mem| && f != frame && f !in BelowKids(sp, n, i) ==> mem[f] == mem0[f]
        invariant forall j :: i <= j < 512 ==> mem[frame][j] == mem0[frame][j]
      {
        KidReady(start, mem0, mem, sp, n, i);
        KidApart(sp, n, i, free0, kernelRoot, pmm.maxIndex);
        KidsStep(sp, n, i, free0);
        var kidOk, kidFreed := FreeEntry(sp, n, level, frame, i, start);
        ok := ok && kidOk;
        freed := freed + kidFreed;
      }
      OnlyWithinIs(mem0, mem, BelowKids(sp, n, count), frame, count);
    }

    /** Frees everything at and below a table, entry by entry. */
    method FreeTable(ghost sp: Space, ghost n: Node, level: nat, frame: nat, ghost start: Memory)
      returns (ok: bool, freed: nat)
      requires Valid() && TreeOk(start, sp) && Exclusive(sp) && n in sp.at && 1 <= n.level == level <= 3
      requires frame == sp.at[n]
      requires |mem| == |start| && SameBelow(start, mem, sp, n)
      requires Below(sp, n) !! pmm.Free() + {kernelRoot} && FramesUnder(Below(sp, n), pmm.maxIndex)
      modifies this`mem, pmm, pmm.bitmap
      ensures Valid() && ok && pmm.maxIndex == old(pmm.maxIndex) && |mem| == |start|
      ensures pmm.Free() == old(pmm.Free()) + Below(sp, n)
      ensures freed == pmm.freeCount - old(pmm.freeCount)
      ensures forall f: nat :: f < |mem| && f !in Below(sp, n) ==> mem[f] == old(mem)[f]
      decreases 4 - level, 2
    {
      hide *;
      TableStart(start, mem, sp, n);
      FanoutIs(n);
      BelowSplit(sp, n, pmm.Free(), kernelRoot, pmm.maxIndex);
      ok, freed := FreeEntries(sp, n, level, frame, 512, start);
      OnlyWithinIs(old(mem), mem, BelowKids(sp, n, 512), frame, 512);
      ValidIs();
      PageAddress(frame);
      var last := pmm.FreePage(frame * 4096);
      ok := ok && last;
      freed := freed + 1;
      ValidIs();
    }

    /** Destroys an address space and frees all of its frames; the kernel's own and the loaded one are refused. */
    method Destroy(ghost sp: Space, root: nat) returns (ok: bool, freed: nat)
      requires Valid() && TreeOk(mem, sp) && Exclusive(sp) && root == sp.root
      requires Owned(sp) !! pmm.Free() + {kernelRoot} && FramesUnder(Owned(sp), pmm.maxIndex)
      modifies this`mem, pmm, pmm.bitmap
      ensures Valid() && ok && |mem| == |old(mem)| && pmm.maxIndex == old(pmm.maxIndex)
      ensures root == 0 || root == kernelRoot || root == current ==>
                freed == 0 && mem == old(mem) && pmm.Free() == old(pmm.Free())
      ensures root != 0 && root != kernelRoot && root != current ==>
                && pmm.Free() == old(pmm.Free()) + Owned(sp) && freed == |Owned(sp)|
                && (forall f: nat :: f < |mem| && f !in Owned(sp) ==> mem[f] == old(mem)[f])
                && root < |mem| && (forall i :: 256 <= i < 512 ==> mem[root][i] == old(mem)[root][i])
    {
      hide *;
      ok, freed := true, 0;
      ghost var start, free0 := mem, pmm.Free();
      ValidIs();
      pmm.CountIs();
      RootIs();
      TreeParts(mem, sp);
      RootAt(mem, sp);
      if root == 0 || root == kernelRoot || root == current {
        return;
      }
      OwnedIsBelow(mem, sp);
      SameAll(mem, sp, ROOT);
      FanoutIs(ROOT);
      BelowSplit(sp, ROOT, pmm.Free(), kernelRoot, pmm.maxIndex);
      ok, freed := FreeEntries(sp, ROOT, 0, root, 256, start);
      OnlyWithinIs(start, mem, BelowKids(sp, ROOT, 256), root, 256);
      ValidIs();
      PageAddress(root);
      var last := pmm.FreePage(root * 4096);
      ok := ok && last;
      freed := freed + 1;
      ValidIs();
      CountUnion(free0, Owned(sp));
      pmm.CountIs();
    }

    /** Allocates a frame and maps it at a page that has none yet. */
    method MapFresh(ghost sp: Space, root: nat, virt: nat, flags: Flags) returns (r: Outcome, ghost sp': Space)
      requires Valid() && Private(mem, pmm.Free(), pmm.maxIndex, kernelRoot, sp) && root == sp.root
      requires virt < USER_VIRT_MAX && virt / 4096 !in sp.pages
      modifies this`mem, pmm, pmm.bitmap
      ensures Valid() && pmm.maxIndex == old(pmm.maxIndex) && |mem| == |old(mem)| && sp'.root == sp.root
      ensures r.Refused? <==> virt % 4096 != 0 && old(pmm.freeCount) > 0
      ensures r.Panicked? ==> pmm.Free() == {}
      ensures r.Panicked? <==>
                || old(pmm.freeCount) == 0
                || (virt % 4096 == 0 && old(pmm.freeCount) + |sp.at.Keys| < 1 + |sp.at.Keys + TablesFor(virt / 4096)|)
      ensures r.Mapped? ==>
                && sp'.at.Keys == sp.at.Keys + TablesFor(virt / 4096)
                && pmm.freeCount + |sp'.at.Keys| + 1 == old(pmm.freeCount) + |sp.at.Keys|
      ensures r.Mapped? ==>
                && virt % 4096 == 0 && Private(mem, pmm.Free(), pmm.maxIndex, kernelRoot, sp')
                && sp'.pages.Keys == sp.pages.Keys + {virt / 4096}
                && pmm.Free() + Owned(sp') == old(pmm.Free()) + Owned(sp)
                && KeptOutside(old(mem), mem, Owned(sp'))
    {
      hide *;
      ValidIs();
      pmm.FreeBelow();
      PrivateParts(mem, pmm.Free(), pmm.maxIndex, kernelRoot, sp);
      sp' := sp;
      pmm.CountIs();
      var f := AllocFrame();
      if f.None? {
        return Panicked, sp;
      }
      ghost var mem1, free1 := mem, pmm.Free();
      PageAddress(f.value);
      FreshTree(old(mem), sp, f.value, old(pmm.Free()));
      r, sp' := MapPage(sp, root, virt, f.value * 4096, flags);
      GrowsIs(sp, sp');
      ElsewhereIs(mem1, mem, sp');
      if r.Mapped? {
        FreshKeeps(old(mem), mem1, mem, sp, sp', old(pmm.Free()), pmm.Free(), pmm.maxIndex, kernelRoot, virt / 4096,
                   f.value, flags);
        KeptIs(old(mem), mem, Owned(sp'));
      }
    }

    /** Maps fresh frames at the requested pages, in order, until one cannot be mapped. */
    method MapAll(ghost sp0: Space, root: nat, reqs: seq<Request>, ghost start: Memory, ghost free0: set<nat>)
      returns (ok: bool, ghost sp: Space)
      requires Valid() && Private(mem, pmm.Free(), pmm.maxIndex, kernelRoot, sp0) && root == sp0.root
      requires DistinctPages(reqs) && forall i :: 0 <= i < |reqs| ==> reqs[i].virt < USER_VIRT_MAX
      requires sp0.pages == map[] && sp0.at.Keys == {ROOT} && pmm.Free() + Owned(sp0) == free0 && |mem| == |start|
      requires KeptOutside(start, mem, free0)
      modifies this`mem, pmm, pmm.bitmap
      ensures Valid() && pmm.maxIndex == old(pmm.maxIndex) && |mem| == |start|
      ensures ok <==> PageAligned(reqs) && |TablesNeeded(reqs, |reqs|)| + |reqs| <= old(pmm.freeCount) + 1
      ensures ok ==>
                && Private(mem, pmm.Free(), pmm.maxIndex, kernelRoot, sp) && sp.root == root
                   && pmm.Free() + Owned(sp) == free0
                && sp.pages.Keys == RequestedPages(reqs, |reqs|) && sp.at.Keys == TablesNeeded(reqs, |reqs|)
                && pmm.freeCount + |sp.at.Keys| + |reqs| == old(pmm.freeCount) + 1
                && KeptOutside(start, mem, free0)
    {
      hide *;
      ok, sp := false, sp0;
      RequestedNone(reqs);
      NeededNone(reqs);
      AlignedNone(reqs);
      for i := 0 to |reqs|
        invariant Valid() && pmm.maxIndex == old(pmm.maxIndex) && |mem| == |start| && sp.root == root
        invariant Private(mem, pmm.Free(), pmm.maxIndex, kernelRoot, sp) && pmm.Free() + Owned(sp) == free0
        invariant sp.pages.Keys == RequestedPages(reqs, i) && sp.at.Keys == TablesNeeded(reqs, i)
        invariant pmm.freeCount + |sp.at.Keys| + i == old(pmm.freeCount) + 1
        invariant PageAligned(reqs[..i])
        invariant KeptOutside(start, mem, free0)
      {
        NotYetMapped(reqs, i, i);
        RequestedStep(reqs, i);
        NeededStep(reqs, i);
        NeededGrows(reqs, i, |reqs|);
        NeededGrows(reqs, i + 1, |reqs|);
        AlignedStep(reqs, i);
        ghost var mem0 := mem;
        var r;
        ghost var sp';
        r, sp' := MapFresh(sp, root, reqs[i].virt, reqs[i].flags);
        if !r.Mapped? {
          return;
        }
        KeptMore(start, mem0, mem, free0, Owned(sp'));
        sp := sp';
      }
      ok := true;
    }

    /** A whole life: create, map fresh frames at distinct pages in any order, destroy. It goes through exactly when
        there are frames for all tables and pages; then the free set comes back exactly, every frame is freed once, and
        no frame that was in use before, the kernel's tables included, is written. */
    method Lifecycle(reqs: seq<Request>) returns (ok: bool, freed: nat, ghost owned: set<nat>)
      requires Valid() && DistinctPages(reqs)
      requires forall i :: 0 <= i < |reqs| ==> reqs[i].virt < USER_VIRT_MAX
      requires 0 !in pmm.Free() && current !in pmm.Free()
      modifies this`mem, pmm, pmm.bitmap
      ensures ok <==> PageAligned(reqs) && |TablesNeeded(reqs, |reqs|)| + |reqs| <= old(pmm.freeCount)
      ensures ok ==> freed == |owned| == |TablesNeeded(reqs, |reqs|)| + |reqs|
      ensures ok ==>
                && Valid() && pmm.Free() == old(pmm.Free()) && owned <= old(pmm.Free())
                && KeptOutside(old(mem), mem, old(pmm.Free()))
    {
      hide *;
      ok, freed, owned := false, 0, {};
      ghost var free0 := pmm.Free();
      ValidIs();
      pmm.FreeBelow();
      pmm.CountIs();
      NeededNone(reqs);
      NeededGrows(reqs, 0, |reqs|);
      var root;
      ghost var sp0, sp;
      root, sp0 := Create();
      if root.None? {
        return;
      }
      FirstPrivate(mem, pmm.Free(), pmm.maxIndex, kernelRoot, sp0);
      KeptIs(old(mem), mem, free0);
      ok, sp := MapAll(sp0, root.value, reqs, old(mem), free0);
      if !ok {
        return;
      }
      PrivateParts(mem, pmm.Free(), pmm.maxIndex, kernelRoot, sp);
      owned := Owned(sp);
      ValidIs();
      pmm.CountIs();
      CountUnion(pmm.Free(), owned);
      KeptIs(old(mem), mem, free0);
      ok, freed := Destroy(sp, root.value);
      KeptIs(old(mem), mem, free0);
    }
  }
}
