/** Four-level page tables as a tree of table frames over a flat physical memory. */
module Paging {
  import opened Options

  const USER_VIRT_MAX: nat := 0x8000_0000_0000

  /** A page-table entry, field by field; `other` holds the bits that neither mapping nor translation looks at. */
  datatype Pte = Pte(present: bool, writable: bool, user: bool, huge: bool, frame: nat, other: nat)

  const ABSENT: Pte := Pte(false, false, false, false, 0, 0)

  function EmptyTable(): (t: seq<Pte>)
    ensures |t| == 512 && forall i :: 0 <= i < 512 ==> t[i] == ABSENT
  {
    seq(512, _ => ABSENT)
  }

  type Table = t: seq<Pte> | |t| == 512 witness EmptyTable()

  /** Physical memory, each frame seen as 512 entries. */
  type Memory = seq<Table>

  // ---------- positions in the tree ----------

  /** Table number `key` of level `level`; level 0 is the root, level 4 the pages themselves. */
  datatype Node = Node(level: nat, key: nat)

  const ROOT: Node := Node(0, 0)

  /** The user half of the tree. */
  predicate NodeOk(n: Node) {
    match n.level
    case 0 => n.key == 0
    case 1 => n.key < 256
    case 2 => n.key < 256 * 512
    case 3 => n.key < 256 * 512 * 512
    case 4 => n.key < 256 * 512 * 512 * 512
    case _ => false
  }

  function Up(n: Node): Node
    requires n.level > 0
  {
    Node(n.level - 1, n.key / 512)
  }

  function Slot(n: Node): (i: nat)
    ensures i < 512
  {
    n.key % 512
  }

  function Child(n: Node, i: nat): Node {
    Node(n.level + 1, n.key * 512 + i)
  }

  function Fanout(n: Node): nat {
    if n.level == 0 then 256 else 512
  }

  lemma ChildUp(n: Node, i: nat)
    requires i < 512
    ensures Up(Child(n, i)) == n && Slot(Child(n, i)) == i
  {
  }

  lemma UpChild(n: Node)
    requires n.level > 0
    ensures Child(Up(n), Slot(n)) == n
  {
  }

  lemma UpOk(n: Node)
    requires NodeOk(n) && n.level > 0
    ensures NodeOk(Up(n)) && Slot(n) < Fanout(Up(n))
  {
  }

  lemma ChildOk(n: Node, i: nat)
    requires NodeOk(n) && n.level < 4 && i < Fanout(n)
    ensures NodeOk(Child(n, i))
  {
  }

  // ---------- an address space ----------

  /** The table frames of an address space by position, and its mapped pages by page number. */
  datatype Space = Space(root: nat, at: map<Node, nat>, pages: map<nat, Pte>)

  function PageNode(page: nat): Node {
    Node(4, page)
  }

  /** The table that would hold the entry of position `n` exists. */
  predicate Reached(mem: Memory, sp: Space, n: Node) {
    n.level > 0 && Up(n) in sp.at && sp.at[Up(n)] < |mem|
  }

  function EntryAt(mem: Memory, sp: Space, n: Node): (e: Pte)
    requires Reached(mem, sp, n)
  {
    mem[sp.at[Up(n)]][Slot(n)]
  }

  predicate TableNode(mem: Memory, sp: Space, n: Node) {
    && NodeOk(n) && n.level <= 3
    && n in sp.at && sp.at[n] < |mem|
    && (n.level > 0 ==> Reached(mem, sp, n))
  }

  predicate LeafNode(mem: Memory, sp: Space, page: nat) {
    NodeOk(PageNode(page)) && Reached(mem, sp, PageNode(page))
  }

  ghost predicate NodesOk(mem: Memory, sp: Space) {
    && ROOT in sp.at && sp.at[ROOT] == sp.root
    && (forall n :: n in sp.at ==> TableNode(mem, sp, n))
    && (forall p :: p in sp.pages ==> LeafNode(mem, sp, p))
  }

  ghost predicate Injective(sp: Space) {
    forall m, n :: m in sp.at && n in sp.at && sp.at[m] == sp.at[n] ==> m == n
  }

  /** The entry for position `n` is what the space says: a link, a page, or nothing. */
  ghost predicate EntryOk(mem: Memory, sp: Space, n: Node)
    requires Reached(mem, sp, n)
  {
    var e := EntryAt(mem, sp, n);
    if n.level == 4 then
      (if n.key in sp.pages then e == sp.pages[n.key] && e.present else !e.present)
    else
      (if n in sp.at then e.present && e.writable && !e.huge && e.frame == sp.at[n] else !e.present)
  }

  /** A user entry is reached through user entries only. */
  ghost predicate UserAbove(mem: Memory, sp: Space, n: Node)
    requires Reached(mem, sp, n)
  {
    n.level > 1 && EntryAt(mem, sp, n).present && EntryAt(mem, sp, n).user
    ==> Reached(mem, sp, Up(n)) && EntryAt(mem, sp, Up(n)).user
  }

  ghost predicate TreeOk(mem: Memory, sp: Space) {
    && NodesOk(mem, sp) && Injective(sp)
    && (forall n :: NodeOk(n) && Reached(mem, sp, n) ==> EntryOk(mem, sp, n) && UserAbove(mem, sp, n))
  }

  lemma TreeParts(mem: Memory, sp: Space)
    requires TreeOk(mem, sp)
    ensures NodesOk(mem, sp) && Injective(sp)
    ensures forall n :: NodeOk(n) && Reached(mem, sp, n) ==> EntryOk(mem, sp, n) && UserAbove(mem, sp, n)
  {
  }

  lemma TreeIs(mem: Memory, sp: Space)
    requires NodesOk(mem, sp) && Injective(sp)
    requires forall n :: NodeOk(n) && Reached(mem, sp, n) ==> EntryOk(mem, sp, n) && UserAbove(mem, sp, n)
    ensures TreeOk(mem, sp)
  {
  }

  lemma NodeParts(mem: Memory, sp: Space, n: Node)
    requires NodesOk(mem, sp) && n in sp.at
    ensures NodeOk(n) && n.level <= 3 && sp.at[n] < |mem| && (n.level > 0 ==> Reached(mem, sp, n))
  {
    hide Reached, NodeOk, LeafNode;
    assert TableNode(mem, sp, n);
  }

  lemma ReachedIs(mem: Memory, sp: Space, n: Node)
    ensures Reached(mem, sp, n) == (n.level > 0 && Up(n) in sp.at && sp.at[Up(n)] < |mem|)
  {
    hide Up;
  }

  /** Where an entry is, the link above it is too. */
  lemma ReachedUp(mem: Memory, sp: Space, n: Node)
    requires NodesOk(mem, sp) && Reached(mem, sp, n) && n.level > 1
    ensures Reached(mem, sp, Up(n)) && Up(n) in sp.at
  {
    hide *;
    ReachedIs(mem, sp, n);
    NodeParts(mem, sp, Up(n));
    UpLevel(n);
  }

  lemma UpLevel(n: Node)
    requires n.level > 0
    ensures Up(n).level == n.level - 1
  {
  }

  lemma NodeLevel(n: Node)
    requires NodeOk(n)
    ensures n.level <= 4
  {
  }

  // ---------- writing one entry ----------

  function SetEntry(mem: Memory, f: nat, i: nat, e: Pte): (mem': Memory)
    requires f < |mem| && i < 512
    ensures |mem'| == |mem|
  {
    mem[f := mem[f][i := e]]
  }

  /** Memory with the entry for position `n` replaced. */
  function PutEntry(mem: Memory, sp: Space, n: Node, e: Pte): (mem': Memory)
    requires Reached(mem, sp, n)
    ensures |mem'| == |mem|
  {
    SetEntry(mem, sp.at[Up(n)], Slot(n), e)
  }

  /** Writing the entry for position `n` changes no other position's entry. */
  lemma EntryElsewhere(mem: Memory, sp: Space, n: Node, e: Pte, m: Node)
    requires Injective(sp) && Reached(mem, sp, n) && Reached(mem, sp, m)
    ensures Reached(PutEntry(mem, sp, n, e), sp, m)
    ensures EntryAt(PutEntry(mem, sp, n, e), sp, m) == if m == n then e else EntryAt(mem, sp, m)
  {
    hide Up, Slot;
    if sp.at[Up(m)] == sp.at[Up(n)] && Slot(m) == Slot(n) {
      UpChild(m);
      UpChild(n);
    }
  }

  lemma SameReach(mem: Memory, mem': Memory, sp: Space, n: Node)
    requires |mem'| == |mem|
    ensures Reached(mem', sp, n) == Reached(mem, sp, n)
  {
    hide Up;
  }

  /** A tree whose entries changed at position `n` only. */
  lemma PutEntryNodes(mem: Memory, sp: Space, n: Node, e: Pte)
    requires NodesOk(mem, sp) && Reached(mem, sp, n)
    ensures NodesOk(PutEntry(mem, sp, n, e), sp)
  {
    hide Reached, NodeOk, PutEntry;
    var mem' := PutEntry(mem, sp, n, e);
    forall m | m in sp.at ensures TableNode(mem', sp, m) {
      assert TableNode(mem, sp, m);
      SameReach(mem, mem', sp, m);
    }
    forall p | p in sp.pages ensures LeafNode(mem', sp, p) {
      assert LeafNode(mem, sp, p);
      SameReach(mem, mem', sp, PageNode(p));
    }
  }

  /** The space with page `page` mapped by `e`. */
  function WithPage(sp: Space, page: nat, e: Pte): Space {
    sp.(pages := sp.pages[page := e])
  }

  ghost predicate UserLink(mem: Memory, sp: Space, n: Node) {
    Reached(mem, sp, n) && EntryAt(mem, sp, n).user
  }

  /** Writing a page's entry keeps the tree. */
  lemma SetPageTree(mem: Memory, sp: Space, page: nat, e: Pte)
    requires TreeOk(mem, sp) && NodeOk(PageNode(page)) && Reached(mem, sp, PageNode(page)) && e.present
    requires e.user ==> UserLink(mem, sp, Up(PageNode(page)))
    ensures TreeOk(PutEntry(mem, sp, PageNode(page), e), WithPage(sp, page, e))
  {
    hide *;
    var n, sp' := PageNode(page), WithPage(sp, page, e);
    var mem' := PutEntry(mem, sp, n, e);
    TreeParts(mem, sp);
    PutEntryNodes(mem, sp, n, e);
    SameReach(mem, mem', sp, n);
    WithPageNodes(mem', sp, page, e);
    forall m | NodeOk(m) && Reached(mem', sp', m) ensures EntryOk(mem', sp', m) && UserAbove(mem', sp', m) {
      WithPageReach(mem', sp, page, e, m);
      SameReach(mem, mem', sp, m);
      SetPageAt(mem, sp, page, e, m);
    }
    TreeIs(mem', sp');
  }

  lemma WithPageReach(mem: Memory, sp: Space, page: nat, e: Pte, m: Node)
    ensures Reached(mem, WithPage(sp, page, e), m) == Reached(mem, sp, m)
    ensures Reached(mem, sp, m) ==> EntryAt(mem, WithPage(sp, page, e), m) == EntryAt(mem, sp, m)
  {
    hide Up, Slot;
  }

  lemma WithPageNodes(mem: Memory, sp: Space, page: nat, e: Pte)
    requires NodesOk(mem, sp) && Injective(sp) && NodeOk(PageNode(page)) && Reached(mem, sp, PageNode(page))
    ensures NodesOk(mem, WithPage(sp, page, e)) && Injective(WithPage(sp, page, e))
  {
    hide Reached, NodeOk;
    var sp' := WithPage(sp, page, e);
    forall m | m in sp'.at ensures TableNode(mem, sp', m) {
      assert TableNode(mem, sp, m);
      WithPageReach(mem, sp, page, e, m);
    }
    forall p | p in sp'.pages ensures LeafNode(mem, sp', p) {
      assert p == page || LeafNode(mem, sp, p);
      WithPageReach(mem, sp, page, e, PageNode(p));
    }
  }

  lemma SetPageAt(mem: Memory, sp: Space, page: nat, e: Pte, m: Node)
    requires TreeOk(mem, sp) && Reached(mem, sp, PageNode(page)) && e.present
    requires e.user ==> UserLink(mem, sp, Up(PageNode(page)))
    requires NodeOk(m) && Reached(mem, sp, m)
    ensures var sp', mem' := WithPage(sp, page, e), PutEntry(mem, sp, PageNode(page), e);
            Reached(mem', sp', m) && EntryOk(mem', sp', m) && UserAbove(mem', sp', m)
  {
    hide TreeOk, NodeOk, NodesOk, Injective, PutEntry, EntryAt, Reached;
    TreeParts(mem, sp);
    NodeLevel(m);
    ReachedIs(mem, sp, m);
    UpLevel(m);
    var n := PageNode(page);
    var sp', mem' := WithPage(sp, page, e), PutEntry(mem, sp, n, e);
    EntryElsewhere(mem, sp, n, e, m);
    WithPageReach(mem', sp, page, e, m);
    if m.level > 1 {
      ReachedUp(mem, sp, m);
      EntryElsewhere(mem, sp, n, e, Up(m));
      WithPageReach(mem', sp, page, e, Up(m));
    }
  }

  /** The space with table frame `f` at position `n`. */
  function WithTable(sp: Space, n: Node, f: nat): Space {
    sp.(at := sp.at[n := f])
  }

  function LinkEntry(f: nat, user: bool): Pte {
    Pte(true, true, user, false, f, 0)
  }

  ghost predicate Unlinked(sp: Space, f: nat) {
    forall m :: m in sp.at ==> sp.at[m] != f
  }

  /** Zeroing a frame that is no table of the space changes none of its entries. */
  lemma ZeroElsewhere(mem: Memory, sp: Space, f: nat, m: Node)
    requires f < |mem| && Unlinked(sp, f)
    ensures Reached(mem[f := EmptyTable()], sp, m) == Reached(mem, sp, m)
    ensures Reached(mem, sp, m) ==> EntryAt(mem[f := EmptyTable()], sp, m) == EntryAt(mem, sp, m)
  {
    hide Up, Slot, EmptyTable;
  }

  lemma ZeroTree(mem: Memory, sp: Space, f: nat)
    requires TreeOk(mem, sp) && f < |mem| && Unlinked(sp, f)
    ensures TreeOk(mem[f := EmptyTable()], sp)
  {
    hide *;
    TreeParts(mem, sp);
    var mem' := mem[f := EmptyTable()];
    SameNodes(mem, mem', sp);
    forall m | NodeOk(m) && Reached(mem', sp, m) ensures EntryOk(mem', sp, m) && UserAbove(mem', sp, m) {
      ZeroElsewhere(mem, sp, f, m);
      if m.level > 1 {
        ReachedUp(mem, sp, m);
        ZeroElsewhere(mem, sp, f, Up(m));
      }
      SameEntry(mem, mem', sp, m);
    }
    TreeIs(mem', sp);
  }

  lemma SameNodes(mem: Memory, mem': Memory, sp: Space)
    requires NodesOk(mem, sp) && |mem'| == |mem|
    ensures NodesOk(mem', sp)
  {
    hide Reached, NodeOk;
    forall m | m in sp.at ensures TableNode(mem', sp, m) {
      assert TableNode(mem, sp, m);
      SameReach(mem, mem', sp, m);
    }
    forall p | p in sp.pages ensures LeafNode(mem', sp, p) {
      assert LeafNode(mem, sp, p);
      SameReach(mem, mem', sp, PageNode(p));
    }
  }

  lemma SameEntry(mem: Memory, mem': Memory, sp: Space, m: Node)
    requires Reached(mem, sp, m) && Reached(mem', sp, m) && EntryAt(mem', sp, m) == EntryAt(mem, sp, m)
    requires m.level > 1 ==>
               Reached(mem, sp, Up(m)) && Reached(mem', sp, Up(m))
               && EntryAt(mem', sp, Up(m)) == EntryAt(mem, sp, Up(m))
    requires EntryOk(mem, sp, m) && UserAbove(mem, sp, m)
    ensures EntryOk(mem', sp, m) && UserAbove(mem', sp, m)
  {
    hide Reached, EntryAt, Up;
  }

  /** Linking an empty table at a position that has none keeps the tree. */
  lemma LinkTree(mem: Memory, sp: Space, n: Node, f: nat, user: bool)
    requires TreeOk(mem, sp) && NodeOk(n) && n.level <= 3 && Reached(mem, sp, n) && n !in sp.at
    requires f < |mem| && Unlinked(sp, f) && mem[f] == EmptyTable()
    requires n.level > 1 && user ==> UserLink(mem, sp, Up(n))
    ensures TreeOk(PutEntry(mem, sp, n, LinkEntry(f, user)), WithTable(sp, n, f))
  {
    hide *;
    var sp', mem' := WithTable(sp, n, f), PutEntry(mem, sp, n, LinkEntry(f, user));
    TreeParts(mem, sp);
    PutEntryNodes(mem, sp, n, LinkEntry(f, user));
    SameReach(mem, mem', sp, n);
    WithTableNodes(mem', sp, n, f);
    forall m | NodeOk(m) && Reached(mem', sp', m) ensures EntryOk(mem', sp', m) && UserAbove(mem', sp', m) {
      ReachedIs(mem', sp', m);
      if Up(m) == n {
        LinkTreeBelow(mem, sp, n, f, user, m);
      } else {
        WithTableReach(mem', sp, n, f, m);
        SameReach(mem, mem', sp, m);
        LinkTreeAt(mem, sp, n, f, user, m);
      }
    }
    TreeIs(mem', sp');
  }

  lemma WithTableReach(mem: Memory, sp: Space, n: Node, f: nat, m: Node)
    requires n !in sp.at
    ensures m.level > 0 && Up(m) != n ==> Reached(mem, WithTable(sp, n, f), m) == Reached(mem, sp, m)
    ensures Reached(mem, sp, m) ==> Reached(mem, WithTable(sp, n, f), m) && Up(m) != n
    ensures Reached(mem, sp, m) ==> EntryAt(mem, WithTable(sp, n, f), m) == EntryAt(mem, sp, m)
  {
    hide Up, Slot;
  }

  lemma WithTableNodes(mem: Memory, sp: Space, n: Node, f: nat)
    requires NodesOk(mem, sp) && Injective(sp) && NodeOk(n) && n.level <= 3 && Reached(mem, sp, n) && n !in sp.at
    requires f < |mem| && Unlinked(sp, f)
    ensures NodesOk(mem, WithTable(sp, n, f)) && Injective(WithTable(sp, n, f))
  {
    hide Reached, NodeOk;
    var sp' := WithTable(sp, n, f);
    forall m | m in sp'.at ensures TableNode(mem, sp', m) {
      assert m == n || TableNode(mem, sp, m);
      WithTableReach(mem, sp, n, f, m);
    }
    forall p | p in sp'.pages ensures LeafNode(mem, sp', p) {
      assert LeafNode(mem, sp, p);
      WithTableReach(mem, sp, n, f, PageNode(p));
    }
  }

  lemma LinkTreeAt(mem: Memory, sp: Space, n: Node, f: nat, user: bool, m: Node)
    requires TreeOk(mem, sp) && n.level <= 3 && Reached(mem, sp, n) && n !in sp.at && f < |mem| && Unlinked(sp, f)
    requires n.level > 1 && user ==> UserLink(mem, sp, Up(n))
    requires NodeOk(m) && Reached(mem, sp, m)
    ensures var sp', mem' := WithTable(sp, n, f), PutEntry(mem, sp, n, LinkEntry(f, user));
            Reached(mem', sp', m) && EntryOk(mem', sp', m) && UserAbove(mem', sp', m)
  {
    hide TreeOk, NodeOk, NodesOk, Injective, PutEntry, EntryAt, Reached, Unlinked;
    TreeParts(mem, sp);
    var sp', mem' := WithTable(sp, n, f), PutEntry(mem, sp, n, LinkEntry(f, user));
    EntryElsewhere(mem, sp, n, LinkEntry(f, user), m);
    WithTableReach(mem', sp, n, f, m);
    if m.level > 1 {
      ReachedUp(mem, sp, m);
      EntryElsewhere(mem, sp, n, LinkEntry(f, user), Up(m));
      WithTableReach(mem', sp, n, f, Up(m));
    }
  }

  /** Below the new table there is nothing yet. */
  lemma LinkTreeBelow(mem: Memory, sp: Space, n: Node, f: nat, user: bool, m: Node)
    requires TreeOk(mem, sp) && NodeOk(n) && n.level <= 3 && Reached(mem, sp, n) && n !in sp.at
    requires f < |mem| && Unlinked(sp, f) && mem[f] == EmptyTable()
    requires NodeOk(m) && m.level > 0 && Up(m) == n
    ensures var sp', mem' := WithTable(sp, n, f), PutEntry(mem, sp, n, LinkEntry(f, user));
            Reached(mem', sp', m) && EntryOk(mem', sp', m) && UserAbove(mem', sp', m)
  {
    hide TreeOk, NodeOk, NodesOk, Injective, EmptyTable, Up, Slot;
    TreeParts(mem, sp);
    NothingBelow(mem, sp, n, m);
    UpLevel(m);
    assert sp.at[Up(n)] != f;
  }

  lemma NothingBelow(mem: Memory, sp: Space, n: Node, m: Node)
    requires NodesOk(mem, sp) && n !in sp.at && m.level > 0 && Up(m) == n
    ensures m !in sp.at && (m.level == 4 ==> m.key !in sp.pages)
  {
    hide NodeOk, Up;
    assert m in sp.at ==> TableNode(mem, sp, m);
    assert m.level == 4 ==> m == PageNode(m.key);
    assert m.key in sp.pages ==> LeafNode(mem, sp, m.key);
  }

  /** Adding the user bit top-down keeps the tree. */
  lemma AddUserTree(mem: Memory, sp: Space, n: Node)
    requires TreeOk(mem, sp) && n in sp.at && Reached(mem, sp, n) && n.level <= 3
    requires n.level > 1 ==> UserLink(mem, sp, Up(n))
    ensures TreeOk(PutEntry(mem, sp, n, EntryAt(mem, sp, n).(user := true)), sp)
  {
    hide *;
    var mem' := PutEntry(mem, sp, n, EntryAt(mem, sp, n).(user := true));
    TreeParts(mem, sp);
    PutEntryNodes(mem, sp, n, EntryAt(mem, sp, n).(user := true));
    forall m | NodeOk(m) && Reached(mem', sp, m) ensures EntryOk(mem', sp, m) && UserAbove(mem', sp, m) {
      SameReach(mem, mem', sp, m);
      AddUserAt(mem, sp, n, m);
    }
    TreeIs(mem', sp);
  }

  lemma AddUserAt(mem: Memory, sp: Space, n: Node, m: Node)
    requires TreeOk(mem, sp) && n in sp.at && Reached(mem, sp, n) && n.level <= 3
    requires n.level > 1 ==> UserLink(mem, sp, Up(n))
    requires NodeOk(m) && Reached(mem, sp, m)
    ensures var mem' := PutEntry(mem, sp, n, EntryAt(mem, sp, n).(user := true));
            Reached(mem', sp, m) && EntryOk(mem', sp, m) && UserAbove(mem', sp, m)
  {
    hide TreeOk, NodeOk, NodesOk, Injective, PutEntry, EntryAt, Reached;
    TreeParts(mem, sp);
    var e := EntryAt(mem, sp, n).(user := true);
    EntryElsewhere(mem, sp, n, e, m);
    if m.level > 1 {
      ReachedUp(mem, sp, m);
      EntryElsewhere(mem, sp, n, e, Up(m));
    }
  }

  // ---------- translation ----------

  /** What a lookup of `virt` yields: the mapped frame at the same offset, if the access is allowed. */
  function Lookup(pages: map<nat, Pte>, virt: nat, write: bool): (r: Option<nat>) {
    var page := virt / 4096;
    if virt < USER_VIRT_MAX && page in pages && pages[page].user && (write ==> pages[page].writable)
    then Some(pages[page].frame * 4096 + virt % 4096) else None
  }

  /** The position at level `l` on the way to a page. */
  function Toward(page: nat, l: nat): (n: Node)
    requires l <= 4
    ensures n.level == l
    decreases 4 - l
  {
    if l == 4 then PageNode(page) else Up(Toward(page, l + 1))
  }
}
