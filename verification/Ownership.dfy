/** Which frames an address space owns, position by position, and how they split below a table. */
module Ownership {
  import opened Paging

  /** Position `n` of the space holds a table or a mapped page. */
  predicate Has(sp: Space, n: Node) {
    if n.level == 4 then n.key in sp.pages else n in sp.at
  }

  function FrameAt(sp: Space, n: Node): nat
    requires Has(sp, n)
  {
    if n.level == 4 then sp.pages[n.key].frame else sp.at[n]
  }

  ghost function Tables(sp: Space): (s: set<nat>)
    ensures forall f :: f in s <==> !Unlinked(sp, f)
  {
    set n | n in sp.at :: sp.at[n]
  }

  ghost function PageFrames(sp: Space): (s: set<nat>)
    ensures forall p :: p in sp.pages ==> sp.pages[p].frame in s
  {
    set p | p in sp.pages :: sp.pages[p].frame
  }

  /** All frames of the space: its tables and its mapped pages. */
  ghost function Owned(sp: Space): (s: set<nat>) {
    Tables(sp) + PageFrames(sp)
  }

  /** No frame is used at two positions. */
  ghost predicate Exclusive(sp: Space) {
    forall m, n :: Has(sp, m) && Has(sp, n) && FrameAt(sp, m) == FrameAt(sp, n) ==> m == n
  }

  // ---------- subtrees ----------

  /** The frames at and below position `n`. */
  ghost function Below(sp: Space, n: Node): (s: set<nat>)
    requires n.level <= 4
    decreases 4 - n.level, 1, 0
  {
    if !Has(sp, n) then {}
    else {FrameAt(sp, n)} + (if n.level < 4 then BelowKids(sp, n, Fanout(n)) else {})
  }

  /** The frames at and below the first `i` children of `n`. */
  ghost function BelowKids(sp: Space, n: Node, i: nat): (s: set<nat>)
    requires n.level < 4
    decreases 4 - n.level, 0, i
  {
    if i == 0 then {} else BelowKids(sp, n, i - 1) + Below(sp, Child(n, i - 1))
  }

  function Climb(m: Node, k: nat): Node
    requires k <= m.level
    decreases k
  {
    if k == 0 then m else Climb(Up(m), k - 1)
  }

  /** `m` lies at or below `n`. */
  predicate Under(m: Node, n: Node) {
    n.level <= m.level && Climb(m, m.level - n.level) == n
  }

  lemma UnderSelf(n: Node)
    ensures Under(n, n)
  {
  }

  lemma {:induction false} ClimbUp(m: Node, k: nat)
    requires k < m.level
    ensures Climb(m, k).level == m.level - k && Climb(m, k + 1) == Up(Climb(m, k))
    decreases k
  {
    if k > 0 { ClimbUp(Up(m), k - 1); }
  }

  /** What lies below a child lies below its parent. */
  lemma UnderChild(m: Node, n: Node, i: nat)
    requires Under(m, Child(n, i)) && i < 512
    ensures Under(m, n) && m.level > n.level
  {
    ClimbUp(m, m.level - n.level - 1);
    ChildUp(n, i);
  }

  lemma UnderOneChild(m: Node, n: Node, i: nat, j: nat)
    requires Under(m, Child(n, i)) && Under(m, Child(n, j))
    ensures i == j
  {
  }

  /** Every frame below `n` sits at some position below `n`. */
  lemma {:induction false} BelowOwner(sp: Space, n: Node, x: nat) returns (m: Node)
    requires n.level <= 4 && x in Below(sp, n)
    ensures Has(sp, m) && FrameAt(sp, m) == x && Under(m, n)
    decreases 4 - n.level, 1, 0
  {
    hide Has, FrameAt, Under;
    if x == FrameAt(sp, n) {
      m := n;
      UnderSelf(n);
    } else {
      var i;
      m, i := KidOwner(sp, n, Fanout(n), x);
      UnderChild(m, n, i);
    }
  }

  lemma {:induction false} KidOwner(sp: Space, n: Node, i: nat, x: nat) returns (m: Node, j: nat)
    requires n.level < 4 && i <= 512 && x in BelowKids(sp, n, i)
    ensures j < i && Has(sp, m) && FrameAt(sp, m) == x && Under(m, Child(n, j))
    decreases 4 - n.level, 0, i
  {
    hide Has, FrameAt, Under, Child;
    if x in BelowKids(sp, n, i - 1) {
      m, j := KidOwner(sp, n, i - 1, x);
    } else {
      ChildLevel(n, i - 1);
      m := BelowOwner(sp, Child(n, i - 1), x);
      j := i - 1;
    }
  }

  lemma ChildLevel(n: Node, i: nat)
    ensures Child(n, i).level == n.level + 1
  {
  }

  /** In a space without shared frames, a child's frames are new against its elder siblings and its parent. */
  lemma KidsApart(sp: Space, n: Node, i: nat)
    requires Exclusive(sp) && n.level < 4 && i < 512 && Has(sp, n)
    ensures Below(sp, Child(n, i)) !! BelowKids(sp, n, i)
    ensures FrameAt(sp, n) !in Below(sp, Child(n, i)) && FrameAt(sp, n) !in BelowKids(sp, n, i)
  {
    hide Has, FrameAt, Under, Below, BelowKids, Child;
    ChildLevel(n, i);
    forall x | x in Below(sp, Child(n, i)) ensures x !in BelowKids(sp, n, i) && x != FrameAt(sp, n) {
      var m := BelowOwner(sp, Child(n, i), x);
      UnderChild(m, n, i);
      if x in BelowKids(sp, n, i) {
        var m', j := KidOwner(sp, n, i, x);
        UnderOneChild(m, n, i, j);
      }
    }
    forall x | x in BelowKids(sp, n, i) ensures x != FrameAt(sp, n) {
      var m, j := KidOwner(sp, n, i, x);
      UnderChild(m, n, j);
    }
  }

  lemma ParentApart(sp: Space, n: Node, i: nat)
    requires Exclusive(sp) && n.level < 4 && i <= 512 && Has(sp, n)
    ensures FrameAt(sp, n) !in BelowKids(sp, n, i)
  {
    hide Has, FrameAt, Under, Below, BelowKids, Child;
    forall x | x in BelowKids(sp, n, i) ensures x != FrameAt(sp, n) {
      var m, j := KidOwner(sp, n, i, x);
      UnderChild(m, n, j);
    }
  }

  // ---------- the whole tree ----------

  lemma {:induction false} KidsGrow(sp: Space, n: Node, i: nat, j: nat)
    requires n.level < 4 && i < j
    ensures Below(sp, Child(n, i)) <= BelowKids(sp, n, j)
    decreases j
  {
    hide Below, Child;
    if i < j - 1 { KidsGrow(sp, n, i, j - 1); }
  }

  /** What is below a position is below the one above it. */
  lemma BelowUp(sp: Space, n: Node)
    requires NodeOk(n) && n.level > 0 && Has(sp, Up(n))
    ensures Below(sp, n) <= Below(sp, Up(n))
  {
    UpOk(n);
    UpChild(n);
    KidsGrow(sp, Up(n), Slot(n), Fanout(Up(n)));
    hide NodeOk, BelowKids, Slot;
  }

  /** Climbing from a position only gathers more frames. */
  lemma {:induction false} BelowClimb(mem: Memory, sp: Space, m: Node, k: nat)
    requires NodesOk(mem, sp) && NodeOk(m) && Has(sp, m) && k <= m.level <= 4
    ensures var n := Climb(m, k); n.level == m.level - k && NodeOk(n) && Has(sp, n) && Below(sp, m) <= Below(sp, n)
    decreases k
  {
    hide NodesOk, Below, NodeOk, Has;
    if k > 0 {
      HasUp(mem, sp, m);
      BelowUp(sp, m);
      BelowClimb(mem, sp, Up(m), k - 1);
    }
  }

  lemma FrameBelow(sp: Space, n: Node)
    requires n.level <= 4 && Has(sp, n)
    ensures FrameAt(sp, n) in Below(sp, n)
  {
    hide Has, FrameAt, BelowKids;
  }

  lemma UnderInBelow(mem: Memory, sp: Space, m: Node, n: Node)
    requires NodesOk(mem, sp) && NodeOk(m) && Has(sp, m) && Under(m, n)
    ensures m.level <= 4 && Has(sp, n) && FrameAt(sp, m) in Below(sp, n)
  {
    hide *;
    UnderIs(m, n);
    NodeLevel(m);
    BelowClimb(mem, sp, m, m.level - n.level);
    FrameBelow(sp, m);
  }

  lemma UnderIs(m: Node, n: Node)
    ensures Under(m, n) == (n.level <= m.level && Climb(m, m.level - n.level) == n)
  {
    hide Climb;
  }

  lemma InBelowRoot(mem: Memory, sp: Space, n: Node)
    requires NodesOk(mem, sp) && NodeOk(n) && Has(sp, n)
    ensures n.level <= 4 && FrameAt(sp, n) in Below(sp, ROOT)
  {
    NodeLevel(n);
    BelowClimb(mem, sp, n, n.level);
    FrameBelow(sp, n);
    hide NodesOk, Below, Has, FrameAt, Climb;
    assert Climb(n, n.level) == ROOT;
  }

  lemma HasUp(mem: Memory, sp: Space, m: Node)
    requires NodesOk(mem, sp) && NodeOk(m) && m.level > 0 && Has(sp, m)
    ensures NodeOk(Up(m)) && Has(sp, Up(m))
  {
    UpOk(m);
    hide NodeOk;
    assert m.level == 4 ==> LeafNode(mem, sp, m.key) && m == PageNode(m.key);
    assert m.level != 4 ==> TableNode(mem, sp, m);
  }

  lemma OwnedIsBelow(mem: Memory, sp: Space)
    requires NodesOk(mem, sp)
    ensures Below(sp, ROOT) == Owned(sp)
  {
    forall x | x in Below(sp, ROOT) ensures x in Owned(sp) {
      var m := BelowOwner(sp, ROOT, x);
      FrameOwned(sp, m);
    }
    forall x | x in Owned(sp) ensures x in Below(sp, ROOT) {
      var m := OwnerOf(mem, sp, x);
      InBelowRoot(mem, sp, m);
    }
  }

  lemma FrameOwned(sp: Space, m: Node)
    requires Has(sp, m)
    ensures FrameAt(sp, m) in Owned(sp)
  {
    hide Unlinked;
    if m.level != 4 { assert sp.at[m] in Tables(sp); }
  }

  lemma OwnerOf(mem: Memory, sp: Space, x: nat) returns (m: Node)
    requires NodesOk(mem, sp) && x in Owned(sp)
    ensures Has(sp, m) && NodeOk(m) && FrameAt(sp, m) == x
  {
    if x in Tables(sp) {
      m :| m in sp.at && sp.at[m] == x;
      assert TableNode(mem, sp, m);
    } else {
      var p :| p in sp.pages && sp.pages[p].frame == x;
      m := PageNode(p);
      assert LeafNode(mem, sp, p);
    }
  }

  // ---------- keeping frames unshared ----------

  /** Tables and page frames never coincide, nor do two pages share a frame. */
  ghost predicate PagesApart(sp: Space) {
    && (forall p, q :: p in sp.pages && q in sp.pages && sp.pages[p].frame == sp.pages[q].frame ==> p == q)
    && (forall p :: p in sp.pages ==> Unlinked(sp, sp.pages[p].frame))
  }

  lemma ExclusiveIs(mem: Memory, sp: Space)
    requires NodesOk(mem, sp) && Injective(sp) && PagesApart(sp)
    ensures Exclusive(sp)
  {
    forall m, n | Has(sp, m) && Has(sp, n) && FrameAt(sp, m) == FrameAt(sp, n) ensures m == n {
      assert m.level != 4 ==> TableNode(mem, sp, m);
      assert n.level != 4 ==> TableNode(mem, sp, n);
      hide NodesOk;
    }
  }
}
