/** Loading the segments of an ELF image into a fresh address space. */
module ElfLoading {
  import opened Options
  import opened Bytes
  import opened Paging
  import opened Ownership
  import opened FrameCounts
  import opened PageAllocators
  import opened AddressSpaces
  import opened UserCopies

  const USER_ADDRESS_MIN: nat := 0x1_0000
  const USER_ADDRESS_MAX: nat := 0x8000_0000_0000
  const USER_STACK_TOP: nat := 0x4000_1000_0000
  const USER_STACK_SIZE: nat := 16 * 4096

  /** The bit of an entry that forbids executing the page, the only one of its other bits a segment uses. */
  const NO_EXEC: nat := 1

  /** A program header of type PT_LOAD. */
  datatype Segment = Segment(vaddr: nat, offset: nat, filesz: nat, memsz: nat, writable: bool, executable: bool)

  predicate UserRangeValid(start: nat, size: nat) {
    size == 0 || (USER_ADDRESS_MIN <= start < USER_ADDRESS_MAX && size <= USER_ADDRESS_MAX - start)
  }

  predicate OverlapsStack(start: nat, end: nat) {
    start < USER_STACK_TOP && end > USER_STACK_TOP - USER_STACK_SIZE
  }

  /** The checks a segment has to pass; a kernel panic otherwise. */
  predicate SegmentOk(s: Segment, imageSize: nat) {
    && s.filesz <= s.memsz && s.offset <= imageSize && s.filesz <= imageSize - s.offset
    && UserRangeValid(s.vaddr, s.memsz) && s.vaddr % 4096 == s.offset % 4096
    && !OverlapsStack(s.vaddr / 4096 * 4096, PageUp(s.vaddr + s.memsz) * 4096)
  }

  /** What the checks of a non-empty segment mean: its file part lies in the image and fits its memory, its offset in a
      page is that in the file, all its addresses are user addresses, and none of its pages is one of the stack's. */
  lemma SegmentOkMeans(s: Segment, imageSize: nat)
    requires s.memsz > 0
    ensures SegmentOk(s, imageSize) <==>
              && s.filesz <= s.memsz && s.offset + s.filesz <= imageSize && s.vaddr % 4096 == s.offset % 4096
              && AllUser(s) && !SharesStack(s)
  {
    LastAddress(s);
    if AllUser(s) { StackPages(s); }
  }

  /** Every address of the segment is a user address. */
  ghost predicate AllUser(s: Segment) {
    forall v: nat :: s.vaddr <= v < s.vaddr + s.memsz ==> UserAddress(v)
  }

  predicate UserAddress(v: nat) {
    USER_ADDRESS_MIN <= v < USER_ADDRESS_MAX
  }

  /** An address of the segment lies in the same page as one of the stack. */
  ghost predicate SharesStack(s: Segment) {
    exists v: nat, w: nat ::
      s.vaddr <= v < s.vaddr + s.memsz && USER_STACK_TOP - USER_STACK_SIZE <= w < USER_STACK_TOP && v / 4096 == w / 4096
  }

  lemma LastAddress(s: Segment)
    requires s.memsz > 0
    ensures AllUser(s) <==> UserRangeValid(s.vaddr, s.memsz)
  {
    if AllUser(s) {
      assert UserAddress(s.vaddr) && UserAddress(s.vaddr + s.memsz - 1);
    }
  }

  lemma StackPages(s: Segment)
    requires s.memsz > 0
    ensures SharesStack(s) <==> OverlapsStack(s.vaddr / 4096 * 4096, PageUp(s.vaddr + s.memsz) * 4096)
  {
    var low, first, end := USER_STACK_TOP - USER_STACK_SIZE, s.vaddr / 4096, PageUp(s.vaddr + s.memsz);
    if OverlapsStack(first * 4096, end * 4096) {
      var page := if first >= low / 4096 then first else low / 4096;
      var v := if page == first then s.vaddr else page * 4096;
      var w := page * 4096;
      assert v / 4096 == page && w / 4096 == page;
      assert s.vaddr <= v < s.vaddr + s.memsz && low <= w < USER_STACK_TOP;
    }
  }

  function FirstPage(s: Segment): nat {
    s.vaddr / 4096
  }

  /** One past the last page of a segment; an empty one has no pages. */
  function EndPage(s: Segment): (p: nat)
    ensures p >= FirstPage(s)
  {
    if s.memsz == 0 then FirstPage(s) else PageUp(s.vaddr + s.memsz)
  }

  /** What address `v` of the segment's pages has to read as: its file byte, or zero. */
  function SegmentByte(image: seq<Byte>, s: Segment, v: nat): Byte
    requires s.offset + s.filesz <= |image|
  {
    if s.vaddr <= v < s.vaddr + s.filesz then image[s.offset + (v - s.vaddr)] else 0
  }

  /** What a user program reads at address `v`. */
  function UserByte(phys: seq<Byte>, pages: map<nat, Pte>, v: nat): Option<Byte> {
    match Lookup(pages, v, false)
    case None => None
    case Some(a) => if a < |phys| then Some(phys[a]) else None
  }

  /** The entry gives a program the access the segment asks for: always reading, writing and executing as marked. */
  predicate Access(e: Pte, s: Segment) {
    e.user && e.writable == s.writable && (e.other == NO_EXEC <==> !s.executable)
  }

  /** The pages of `[first, end)` have the segment's access and read as the segment prescribes. */
  ghost predicate Shows(phys: seq<Byte>, pages: map<nat, Pte>, image: seq<Byte>, s: Segment, first: nat, end: nat) {
    && s.offset + s.filesz <= |image|
    && (forall p: nat :: first <= p < end ==> p in pages && Access(pages[p], s))
    && forall v: nat :: first <= v / 4096 < end ==> UserByte(phys, pages, v) == Some(SegmentByte(image, s, v))
  }

  /** Physical memory with frame `f` replaced. */
  function PutFrame(phys: seq<Byte>, f: nat, bytes: seq<Byte>): (r: seq<Byte>)
    requires |bytes| == 4096 && f * 4096 + 4096 <= |phys|
    ensures |r| == |phys|
  {
    phys[..f * 4096] + bytes + phys[f * 4096 + 4096..]
  }

  lemma PutFrameReads(phys: seq<Byte>, f: nat, bytes: seq<Byte>, g: nat, o: nat)
    requires |bytes| == 4096 && f * 4096 + 4096 <= |phys| && o < 4096 && g * 4096 + 4096 <= |phys|
    ensures PutFrame(phys, f, bytes)[g * 4096 + o] == if g == f then bytes[o] else phys[g * 4096 + o]
  {
    if g < f { assert g * 4096 + o < f * 4096; }
    if g > f { assert g * 4096 >= f * 4096 + 4096; }
  }

  /** The page of the segment that starts at page number `page`. */
  function PageImage(image: seq<Byte>, s: Segment, page: nat): (r: seq<Byte>)
    requires s.offset + s.filesz <= |image|
    ensures |r| == 4096
  {
    seq(4096, o requires 0 <= o < 4096 => SegmentByte(image, s, page * 4096 + o))
  }

  function Max(a: nat, b: nat): (m: nat)
    ensures a <= m && b <= m && (m == a || m == b)
  {
    if a > b then a else b
  }

  /** A zeroed page with the segment's file bytes copied in. */
  method BuildPage(image: seq<Byte>, s: Segment, page: nat) returns (bytes: seq<Byte>)
    requires s.offset + s.filesz <= |image|
    ensures bytes == PageImage(image, s, page)
  {
    var start := page * 4096;
    bytes := seq(4096, _ => 0);
    var copyStart := Max(start, s.vaddr);
    var copyEnd := Min(start + 4096, s.vaddr + s.filesz);
    if copyEnd > copyStart {
      var d, o, n := copyStart - start, s.offset + (copyStart - s.vaddr), copyEnd - copyStart;
      bytes := bytes[..d] + image[o..o + n] + bytes[d + n..];
    }
    assert forall k :: 0 <= k < 4096 ==> bytes[k] == SegmentByte(image, s, start + k);
  }

  /** Writing a frame that no mapped page uses, and mapping it, shows its bytes and changes no other page. */
  lemma NewPageShows(phys: seq<Byte>, pages: map<nat, Pte>, page: nat, e: Pte, bytes: seq<Byte>, v: nat)
    requires |bytes| == 4096 && e.frame * 4096 + 4096 <= |phys| && e.user && page < 0x8_0000_0000
    requires FramesIn(pages, |phys|) && page !in pages && forall p :: p in pages ==> pages[p].frame != e.frame
    ensures UserByte(PutFrame(phys, e.frame, bytes), pages[page := e], v)
         == if v / 4096 == page then Some(bytes[v % 4096]) else UserByte(phys, pages, v)
  {
    hide PutFrame;
    if v / 4096 == page {
      PutFrameReads(phys, e.frame, bytes, e.frame, v % 4096);
    } else if Lookup(pages, v, false).Some? {
      var f := pages[v / 4096].frame;
      PutFrameReads(phys, e.frame, bytes, f, v % 4096);
    }
  }

  /** The pages that show a segment keep showing it when another page is mapped. */
  lemma ShowsMore(phys: seq<Byte>, pages: map<nat, Pte>, page: nat, e: Pte, image: seq<Byte>, s: Segment, first: nat,
                  end: nat, t: Segment)
    requires t.offset + t.filesz <= |image| && e.frame * 4096 + 4096 <= |phys| && e.user && page < 0x8_0000_0000
    requires FramesIn(pages, |phys|) && page !in pages && forall p :: p in pages ==> pages[p].frame != e.frame
    requires Shows(phys, pages, image, s, first, end) && !(first <= page < end)
    ensures Shows(PutFrame(phys, e.frame, PageImage(image, t, page)), pages[page := e], image, s, first, end)
  {
    hide PutFrame, PageImage, UserByte, SegmentByte, FramesIn;
    var phys', pages' := PutFrame(phys, e.frame, PageImage(image, t, page)), pages[page := e];
    forall v: nat | first <= v / 4096 < end ensures UserByte(phys', pages', v) == Some(SegmentByte(image, s, v)) {
      NewPageShows(phys, pages, page, e, PageImage(image, t, page), v);
    }
  }

  /** ... and the segment being loaded shows one page more. */
  lemma ShowsNext(phys: seq<Byte>, pages: map<nat, Pte>, page: nat, e: Pte, image: seq<Byte>, s: Segment, first: nat)
    requires first <= page && e.frame * 4096 + 4096 <= |phys| && Access(e, s) && page < 0x8_0000_0000
    requires FramesIn(pages, |phys|) && page !in pages && forall p :: p in pages ==> pages[p].frame != e.frame
    requires Shows(phys, pages, image, s, first, page)
    ensures Shows(PutFrame(phys, e.frame, PageImage(image, s, page)), pages[page := e], image, s, first, page + 1)
  {
    hide PutFrame, UserByte, SegmentByte, FramesIn;
    var phys', pages' := PutFrame(phys, e.frame, PageImage(image, s, page)), pages[page := e];
    forall v: nat | first <= v / 4096 < page + 1 ensures UserByte(phys', pages', v) == Some(SegmentByte(image, s, v)) {
      NewPageShows(phys, pages, page, e, PageImage(image, s, page), v);
      assert v / 4096 == page ==> page * 4096 + v % 4096 == v;
    }
  }

  /** What loading page `page` of segment `s` did: a new frame holds the page's bytes and is mapped there. */
  ghost predicate PageAdded(phys: seq<Byte>, pages: map<nat, Pte>, phys': seq<Byte>, pages': map<nat, Pte>,
                            image: seq<Byte>, s: Segment, page: nat) {
    && s.offset + s.filesz <= |image| && page !in pages && page < 0x8_0000_0000 && FramesIn(pages, |phys|)
    && page in pages' && pages'[page].frame * 4096 + 4096 <= |phys| && Access(pages'[page], s)
    && pages' == pages[page := pages'[page]] && phys' == PutFrame(phys, pages'[page].frame, PageImage(image, s, page))
    && forall p :: p in pages ==> pages[p].frame != pages'[page].frame
  }

  lemma AddedShows(phys: seq<Byte>, pages: map<nat, Pte>, phys': seq<Byte>, pages': map<nat, Pte>, image: seq<Byte>,
                   s: Segment, page: nat,
                   t: Segment, first: nat, end: nat)
    requires PageAdded(phys, pages, phys', pages', image, s, page) && Shows(phys, pages, image, t, first, end)
    ensures !(first <= page < end) ==> Shows(phys', pages', image, t, first, end)
    ensures t == s && end == page && first <= page ==> Shows(phys', pages', image, s, first, page + 1)
  {
    hide PutFrame, PageImage, Shows, FramesIn;
    if !(first <= page < end) { ShowsMore(phys, pages, page, pages'[page], image, t, first, end, s); }
    if t == s && end == page && first <= page { ShowsNext(phys, pages, page, pages'[page], image, s, first); }
  }

  /** Every segment of `shown` reads as prescribed. */
  ghost predicate AllShown(phys: seq<Byte>, pages: map<nat, Pte>, image: seq<Byte>, shown: seq<Segment>) {
    forall i :: 0 <= i < |shown| && shown[i].memsz > 0 ==>
      Shows(phys, pages, image, shown[i], FirstPage(shown[i]), EndPage(shown[i]))
  }

  lemma ShownIsMapped(phys: seq<Byte>, pages: map<nat, Pte>, image: seq<Byte>, s: Segment, first: nat, end: nat,
                      page: nat)
    requires Shows(phys, pages, image, s, first, end) && first <= page < end
    ensures page in pages
  {
    hide SegmentByte;
    var v := page * 4096;
    assert v / 4096 == page;
    assert UserByte(phys, pages, v) == Some(SegmentByte(image, s, v));
  }

  lemma AllShownMore(phys: seq<Byte>, pages: map<nat, Pte>, phys': seq<Byte>, pages': map<nat, Pte>, image: seq<Byte>,
                     s: Segment, page: nat,
                     shown: seq<Segment>)
    requires PageAdded(phys, pages, phys', pages', image, s, page) && AllShown(phys, pages, image, shown)
    ensures AllShown(phys', pages', image, shown)
  {
    hide PutFrame, PageImage, Shows, FramesIn, FirstPage, EndPage;
    forall i | 0 <= i < |shown| && shown[i].memsz > 0
      ensures Shows(phys', pages', image, shown[i], FirstPage(shown[i]), EndPage(shown[i]))
    {
      var t := shown[i];
      if FirstPage(t) <= page < EndPage(t) { ShownIsMapped(phys, pages, image, t, FirstPage(t), EndPage(t), page); }
      AddedShows(phys, pages, phys', pages', image, s, page, t, FirstPage(t), EndPage(t));
    }
  }

  lemma AllShownAppend(phys: seq<Byte>, pages: map<nat, Pte>, image: seq<Byte>, segs: seq<Segment>, i: nat)
    requires i < |segs| && AllShown(phys, pages, image, segs[..i])
    requires segs[i].memsz > 0 ==> Shows(phys, pages, image, segs[i], FirstPage(segs[i]), EndPage(segs[i]))
    ensures AllShown(phys, pages, image, segs[..i + 1])
  {
    hide Shows, FirstPage, EndPage;
    var less, more := segs[..i], segs[..i + 1];
    assert more == less + [segs[i]];
  }

  lemma ShowsNone(phys: seq<Byte>, pages: map<nat, Pte>, image: seq<Byte>, s: Segment, first: nat)
    requires s.offset + s.filesz <= |image|
    ensures Shows(phys, pages, image, s, first, first)
  {
  }

  lemma SegmentFacts(s: Segment, imageSize: nat)
    requires SegmentOk(s, imageSize) && s.memsz > 0
    ensures s.offset + s.filesz <= imageSize && EndPage(s) <= 0x8_0000_0000 && FirstPage(s) < EndPage(s)
  {
  }

  lemma AccessIs(e: Pte, s: Segment)
    ensures Access(e, s) == (e.user && e.writable == s.writable && (e.other == NO_EXEC <==> !s.executable))
    ensures NO_EXEC != 0
  {
  }

  lemma FrameFits(f: nat, max: nat, size: nat)
    requires f < max && max * 4096 <= size
    ensures f * 4096 + 4096 <= size && (f + 1) * 4096 <= size
  {
  }

  lemma PageInRange(page: nat)
    requires page < 0x8_0000_0000
    ensures page * 4096 < USER_VIRT_MAX
  {
  }

  lemma AddedIs(phys: seq<Byte>, sp: Space, sp': Space, image: seq<Byte>, s: Segment, page: nat, f: nat, free: set<nat>)
    requires s.offset + s.filesz <= |image| && page !in sp.pages && page < 0x8_0000_0000 && FramesIn(sp.pages, |phys|)
    requires Owned(sp) !! free && f in free && (f + 1) * 4096 <= |phys|
    requires page in sp'.pages && sp'.pages == sp.pages[page := sp'.pages[page]] && sp'.pages[page].frame == f
    requires Access(sp'.pages[page], s)
    ensures PageAdded(phys, sp.pages, PutFrame(phys, f, PageImage(image, s, page)), sp'.pages, image, s, page)
    ensures FramesIn(sp'.pages, |phys|)
  {
    hide PutFrame, PageImage, Tables;
    forall p | p in sp.pages ensures sp.pages[p].frame != f {
      assert sp.pages[p].frame in PageFrames(sp);
    }
  }

  /** `now` holds the pages of `before`, unchanged, and those of `[first, end)`. */
  ghost predicate OnlyNew(before: map<nat, Pte>, now: map<nat, Pte>, first: nat, end: nat) {
    && (forall p :: p in before ==> p in now && now[p] == before[p])
    && (forall p :: p in now ==> p in before || first <= p < end)
  }

  lemma OnlyNewNone(pages: map<nat, Pte>, first: nat)
    ensures OnlyNew(pages, pages, first, first)
  {
  }

  predicate PagesFree(pages: set<nat>, first: nat, end: nat) {
    forall p :: p in pages ==> !(first <= p < end)
  }

  /** No two segments share a page. */
  ghost predicate SegmentsApart(segs: seq<Segment>) {
    forall i, j :: 0 <= i < j < |segs| ==>
      EndPage(segs[i]) <= FirstPage(segs[j]) || EndPage(segs[j]) <= FirstPage(segs[i])
  }

  // ---------- how many frames a load takes ----------

  /** The tables and the pages of the first `n` segments. */
  ghost function ImageTables(segs: seq<Segment>, n: nat): (ts: set<Node>)
    requires n <= |segs|
  {
    if n == 0 then {} else ImageTables(segs, n - 1) + RangeTables(FirstPage(segs[n - 1]), EndPage(segs[n - 1]))
  }

  function ImagePages(segs: seq<Segment>, n: nat): (k: nat)
    requires n <= |segs|
  {
    if n == 0 then 0 else ImagePages(segs, n - 1) + (EndPage(segs[n - 1]) - FirstPage(segs[n - 1]))
  }

  lemma ImageNone(segs: seq<Segment>)
    ensures ImageTables(segs, 0) == {} && ImagePages(segs, 0) == 0
  {
  }

  lemma ImageStep(keys: set<Node>, segs: seq<Segment>, n: nat)
    requires n < |segs|
    ensures keys + ImageTables(segs, n + 1)
         == keys + ImageTables(segs, n) + RangeTables(FirstPage(segs[n]), EndPage(segs[n]))
    ensures ImagePages(segs, n + 1) == ImagePages(segs, n) + (EndPage(segs[n]) - FirstPage(segs[n]))
  {
    hide RangeTables, FirstPage, EndPage;
    assert ImageTables(segs, n + 1) == ImageTables(segs, n) + RangeTables(FirstPage(segs[n]), EndPage(segs[n]));
  }

  lemma {:induction false} ImageGrows(keys: set<Node>, segs: seq<Segment>, n: nat, m: nat)
    requires n <= m <= |segs|
    ensures |keys + ImageTables(segs, n)| <= |keys + ImageTables(segs, m)| && ImagePages(segs, n) <= ImagePages(segs, m)
    decreases m
  {
    hide RangeTables, FirstPage, EndPage;
    if n < m {
      ImageGrows(keys, segs, n, m - 1);
      ImageStep(keys, segs, m - 1);
      UnionCount(keys + ImageTables(segs, m - 1), RangeTables(FirstPage(segs[m - 1]), EndPage(segs[m - 1])));
    }
  }

  /** One segment more. */
  lemma TookSegment(keys: set<Node>, free: nat, mid: set<Node>, free': nat, last: set<Node>, free'': nat,
                    segs: seq<Segment>, n: nat)
    requires n < |segs| && Took(keys, free, mid, free', ImageTables(segs, n), ImagePages(segs, n))
    requires var f, e := FirstPage(segs[n]), EndPage(segs[n]); Took(mid, free', last, free'', RangeTables(f, e), e - f)
    ensures Took(keys, free, last, free'', ImageTables(segs, n + 1), ImagePages(segs, n + 1))
  {
    ImageStep(keys, segs, n);
    hide RangeTables, ImageTables, ImagePages, FirstPage, EndPage;
  }

  lemma EnoughSegment(keys: set<Node>, free: nat, mid: set<Node>, free': nat, segs: seq<Segment>, n: nat)
    requires n < |segs| && Took(keys, free, mid, free', ImageTables(segs, n), ImagePages(segs, n))
    ensures var f, e := FirstPage(segs[n]), EndPage(segs[n]);
            Enough(keys, free, ImageTables(segs, |segs|), ImagePages(segs, |segs|)) ==>
              Enough(mid, free', RangeTables(f, e), e - f)
  {
    ImageStep(keys, segs, n);
    ImageGrows(keys, segs, n + 1, |segs|);
    hide RangeTables, ImageTables, ImagePages, FirstPage, EndPage;
  }

  /** The segment has no pages, or passes the checks. */
  predicate Loadable(s: Segment, imageSize: nat) {
    s.memsz == 0 || SegmentOk(s, imageSize)
  }

  predicate AllLoadable(segs: seq<Segment>, imageSize: nat) {
    forall i :: 0 <= i < |segs| ==> Loadable(segs[i], imageSize)
  }

  lemma LoadableStep(segs: seq<Segment>, n: nat, imageSize: nat)
    requires n < |segs|
    ensures AllLoadable(segs[..n + 1], imageSize) <==> AllLoadable(segs[..n], imageSize) && Loadable(segs[n], imageSize)
    ensures AllLoadable(segs, imageSize) ==> Loadable(segs[n], imageSize)
  {
    hide Loadable;
    assert segs[..n + 1] == segs[..n] + [segs[n]];
  }

  lemma LoadableNone(segs: seq<Segment>, imageSize: nat)
    ensures AllLoadable(segs[..0], imageSize) && segs[..|segs|] == segs
  {
  }

  lemma LoadableIs(s: Segment, imageSize: nat)
    ensures Loadable(s, imageSize) == (s.memsz == 0 || SegmentOk(s, imageSize))
    ensures s.memsz == 0 ==> EndPage(s) == FirstPage(s) && RangeTables(FirstPage(s), EndPage(s)) == {}
  {
    hide SegmentOk;
  }

  /** The end of the highest segment. */
  function ImageEnd(segs: seq<Segment>, n: nat): (e: nat)
    requires n <= |segs|
  {
    if n == 0 then 0 else Max(ImageEnd(segs, n - 1), segs[n - 1].vaddr + segs[n - 1].memsz)
  }

  lemma EndStep(segs: seq<Segment>, n: nat)
    requires n <= |segs|
    ensures n == 0 ==> ImageEnd(segs, n) == 0
    ensures n > 0 ==> ImageEnd(segs, n) == Max(ImageEnd(segs, n - 1), segs[n - 1].vaddr + segs[n - 1].memsz)
  {
  }

  /** It is the least address that no segment passes. */
  lemma {:induction false} ImageEndLeast(segs: seq<Segment>, n: nat)
    requires n <= |segs|
    ensures forall k :: 0 <= k < n ==> segs[k].vaddr + segs[k].memsz <= ImageEnd(segs, n)
    ensures ImageEnd(segs, n) == 0 || exists k :: 0 <= k < n && segs[k].vaddr + segs[k].memsz == ImageEnd(segs, n)
  {
    if n > 0 {
      ImageEndLeast(segs, n - 1);
      var e := segs[n - 1].vaddr + segs[n - 1].memsz;
      if ImageEnd(segs, n) != e && ImageEnd(segs, n) != 0 {
        var k :| 0 <= k < n - 1 && segs[k].vaddr + segs[k].memsz == ImageEnd(segs, n - 1);
      }
    }
  }

  /** The pages below `page` of a segment are loaded, and the segments loaded before still read as prescribed. */
  ghost predicate Loaded(phys: seq<Byte>, sp: Space, sp': Space, image: seq<Byte>, s: Segment, page: nat,
                         shown: seq<Segment>) {
    && AllShown(phys, sp'.pages, image, shown) && Shows(phys, sp'.pages, image, s, FirstPage(s), page)
    && OnlyNew(sp.pages, sp'.pages, FirstPage(s), page)
  }

  lemma LoadedIs(phys: seq<Byte>, sp: Space, sp': Space, image: seq<Byte>, s: Segment, page: nat, shown: seq<Segment>)
    requires Loaded(phys, sp, sp', image, s, page, shown)
    ensures AllShown(phys, sp'.pages, image, shown) && Shows(phys, sp'.pages, image, s, FirstPage(s), page)
    ensures OnlyNew(sp.pages, sp'.pages, FirstPage(s), page)
  {
    hide AllShown, Shows, OnlyNew;
  }

  lemma LoadedNone(phys: seq<Byte>, sp: Space, image: seq<Byte>, s: Segment, shown: seq<Segment>)
    requires AllShown(phys, sp.pages, image, shown) && s.offset + s.filesz <= |image|
    ensures Loaded(phys, sp, sp, image, s, FirstPage(s), shown)
  {
    hide AllShown, Shows, OnlyNew, FirstPage;
    ShowsNone(phys, sp.pages, image, s, FirstPage(s));
    OnlyNewNone(sp.pages, FirstPage(s));
  }

  lemma NotLoaded(phys: seq<Byte>, sp: Space, sp': Space, image: seq<Byte>, s: Segment, page: nat, end: nat,
                  shown: seq<Segment>)
    requires Loaded(phys, sp, sp', image, s, page, shown) && PagesFree(sp.pages.Keys, FirstPage(s), end)
    requires FirstPage(s) <= page < end
    ensures page !in sp'.pages
  {
    hide AllShown, Shows, FirstPage;
  }

  lemma PageLoaded(phys: seq<Byte>, phys': seq<Byte>, sp: Space, sp0: Space, sp': Space, image: seq<Byte>, s: Segment,
                   page: nat, shown: seq<Segment>)
    requires Loaded(phys, sp, sp0, image, s, page, shown) && FirstPage(s) <= page
    requires PageAdded(phys, sp0.pages, phys', sp'.pages, image, s, page) && page !in sp0.pages
    ensures Loaded(phys', sp, sp', image, s, page + 1, shown)
  {
    assert page in sp'.pages && sp'.pages == sp0.pages[page := sp'.pages[page]];
    hide AllShown, Shows, FirstPage, PageAdded;
    AddedShows(phys, sp0.pages, phys', sp'.pages, image, s, page, s, FirstPage(s), page);
    AllShownMore(phys, sp0.pages, phys', sp'.pages, image, s, page, shown);
  }

  /** The loader's view of memory: page tables and the bytes of physical memory. */
  class Loader {
    const vmm: Vmm
    var phys: seq<Byte>

    ghost predicate Ready(sp: Space)
      reads this, vmm, vmm.pmm, vmm.pmm.bitmap
    {
      && vmm.Valid() && Private(vmm.mem, vmm.pmm.Free(), vmm.pmm.maxIndex, vmm.kernelRoot, sp)
      && FramesIn(sp.pages, |phys|) && vmm.pmm.maxIndex * 4096 <= |phys|
    }

    constructor (vmm: Vmm, phys: seq<Byte>)
      ensures this.vmm == vmm && this.phys == phys
    {
      this.vmm, this.phys := vmm, phys;
    }

    lemma ReadyIs(sp: Space)
      ensures Ready(sp) == (vmm.Valid() && Private(vmm.mem, vmm.pmm.Free(), vmm.pmm.maxIndex, vmm.kernelRoot, sp)
                            && FramesIn(sp.pages, |phys|) && vmm.pmm.maxIndex * 4096 <= |phys|)
    {
      hide Private, FramesIn;
    }

    /** One page of a segment: a fresh frame, the file bytes, the mapping. */
    method LoadPage(ghost sp: Space, root: nat, image: seq<Byte>, s: Segment, page: nat)
      returns (ok: bool, ghost sp': Space)
      requires Ready(sp) && root == sp.root && s.offset + s.filesz <= |image| && page !in sp.pages
      requires page < 0x8_0000_0000
      modifies this`phys, vmm`mem, vmm.pmm, vmm.pmm.bitmap
      ensures ok ==>
                && Ready(sp') && sp'.root == sp.root && sp'.pages.Keys == sp.pages.Keys + {page}
                && PageAdded(old(phys), sp.pages, phys, sp'.pages, image, s, page) && |phys| == |old(phys)|
                && Took(sp.at.Keys, old(vmm.pmm.freeCount), sp'.at.Keys, vmm.pmm.freeCount, TablesFor(page), 1)
      ensures ok <==> Enough(sp.at.Keys, old(vmm.pmm.freeCount), TablesFor(page), 1)
      ensures !ok ==> vmm.pmm.Free() == {}
    {
      hide *;
      ReadyIs(sp);
      vmm.ValidIs();
      vmm.pmm.FreeBelow();
      PrivateParts(vmm.mem, vmm.pmm.Free(), vmm.pmm.maxIndex, vmm.kernelRoot, sp);
      ok, sp' := false, sp;
      ghost var mem0, free0 := vmm.mem, vmm.pmm.Free();
      EnoughForOne(sp.at.Keys, vmm.pmm.freeCount, page);
      var f := vmm.AllocFrame();
      if f.None? {
        return;
      }
      ghost var mem1 := vmm.mem;
      FreshTree(mem0, sp, f.value, free0);
      var bytes := BuildPage(image, s, page);
      FrameFits(f.value, vmm.pmm.maxIndex, |phys|);
      phys := PutFrame(phys, f.value, bytes);
      var flags := Flags(s.writable, true, false, if s.executable then 0 else NO_EXEC);
      PageInRange(page);
      PageAddress(page);
      PageAddress(f.value);
      var r;
      r, sp' := vmm.MapPage(sp, root, page * 4096, f.value * 4096, flags);
      GrowsIs(sp, sp');
      ElsewhereIs(mem1, vmm.mem, sp');
      if !r.Mapped? {
        return;
      }
      FreshKeeps(mem0, mem1, vmm.mem, sp, sp', free0, vmm.pmm.Free(), vmm.pmm.maxIndex, vmm.kernelRoot, page, f.value,
                 flags);
      PageEntryIs(f.value * 4096, flags);
      AccessIs(PageEntry(f.value * 4096, flags), s);
      AddedIs(old(phys), sp, sp', image, s, page, f.value, free0);
      TookOne(sp.at.Keys, old(vmm.pmm.freeCount), sp'.at.Keys, vmm.pmm.freeCount, page);
      ReadyIs(sp');
      ok := true;
    }

    /** Loads the pages of a segment; fails exactly when there are too few frames for them and their tables. */
    method LoadPages(ghost sp: Space, root: nat, image: seq<Byte>, s: Segment, end: nat, ghost shown: seq<Segment>)
      returns (ok: bool, ghost sp': Space)
      requires Ready(sp) && root == sp.root && s.offset + s.filesz <= |image| && FirstPage(s) <= end <= 0x8_0000_0000
      requires PagesFree(sp.pages.Keys, FirstPage(s), end) && AllShown(phys, sp.pages, image, shown)
      modifies this`phys, vmm`mem, vmm.pmm, vmm.pmm.bitmap
      ensures ok <==> Enough(sp.at.Keys, old(vmm.pmm.freeCount), RangeTables(FirstPage(s), end), end - FirstPage(s))
      ensures !ok ==> vmm.pmm.Free() == {}
      ensures ok ==>
                && Took(sp.at.Keys, old(vmm.pmm.freeCount), sp'.at.Keys, vmm.pmm.freeCount,
                        RangeTables(FirstPage(s), end), end - FirstPage(s))
                && Ready(sp') && sp'.root == sp.root && Loaded(phys, sp, sp', image, s, end, shown)
    {
      hide *;
      ok, sp' := true, sp;
      ghost var first, keys, free := FirstPage(s), sp.at.Keys, vmm.pmm.freeCount;
      TookNone(keys, free, first);
      LoadedNone(phys, sp, image, s, shown);
      var page := FirstPage(s);
      while page < end
        invariant first <= page <= end && Ready(sp') && sp'.root == sp.root
        invariant Loaded(phys, sp, sp', image, s, page, shown)
        invariant Took(keys, free, sp'.at.Keys, vmm.pmm.freeCount, RangeTables(first, page), page - first)
        invariant ok && Enough(keys, free, RangeTables(first, page), page - first)
      {
        ghost var phys0, sp0 := phys, sp';
        ghost var free0 := vmm.pmm.freeCount;
        EnoughPage(keys, free, sp0.at.Keys, free0, first, page, end);
        NotLoaded(phys, sp, sp0, image, s, page, end, shown);
        ok, sp' := LoadPage(sp0, root, image, s, page);
        if !ok {
          return;
        }
        TookPage(keys, free, sp0.at.Keys, free0, sp'.at.Keys, vmm.pmm.freeCount, first, page);
        PageLoaded(phys0, phys, sp, sp0, sp', image, s, page, shown);
        page := page + 1;
      }
    }

    /** Loads one segment; `ok` is false where the kernel would panic. */
    method LoadSegment(ghost sp: Space, root: nat, image: seq<Byte>, s: Segment, ghost shown: seq<Segment>)
      returns (ok: bool, ghost sp': Space)
      requires Ready(sp) && root == sp.root && PagesFree(sp.pages.Keys, FirstPage(s), EndPage(s))
      requires AllShown(phys, sp.pages, image, shown)
      modifies this`phys, vmm`mem, vmm.pmm, vmm.pmm.bitmap
      ensures ok <==>
                && Loadable(s, |image|)
                && Enough(sp.at.Keys, old(vmm.pmm.freeCount), RangeTables(FirstPage(s), EndPage(s)),
                          EndPage(s) - FirstPage(s))
      ensures !ok && Loadable(s, |image|) ==> vmm.pmm.Free() == {}
      ensures ok ==>
                && Took(sp.at.Keys, old(vmm.pmm.freeCount), sp'.at.Keys, vmm.pmm.freeCount,
                        RangeTables(FirstPage(s), EndPage(s)), EndPage(s) - FirstPage(s))
                && Ready(sp') && sp'.root == sp.root && AllShown(phys, sp'.pages, image, shown)
                && (s.memsz > 0 ==> Shows(phys, sp'.pages, image, s, FirstPage(s), EndPage(s)))
                && OnlyNew(sp.pages, sp'.pages, FirstPage(s), EndPage(s))
    {
      hide *;
      ok, sp' := true, sp;
      LoadableIs(s, |image|);
      TookNone(sp.at.Keys, vmm.pmm.freeCount, FirstPage(s));
      OnlyNewNone(sp.pages, FirstPage(s));
      if s.memsz == 0 {
        return;
      }
      if !SegmentOk(s, |image|) {
        return false, sp;
      }
      SegmentFacts(s, |image|);
      ok, sp' := LoadPages(sp, root, image, s, EndPage(s), shown);
      if ok { LoadedIs(phys, sp, sp', image, s, EndPage(s), shown); }
    }

    /** Loads every segment of an image; the heap starts after the last one. */
    method LoadImage(ghost sp: Space, root: nat, image: seq<Byte>, segs: seq<Segment>)
      returns (ok: bool, brk: nat, ghost sp': Space)
      requires Ready(sp) && root == sp.root && SegmentsApart(segs)
      requires forall i :: 0 <= i < |segs| ==> PagesFree(sp.pages.Keys, FirstPage(segs[i]), EndPage(segs[i]))
      modifies this`phys, vmm`mem, vmm.pmm, vmm.pmm.bitmap
      ensures ok <==>
                && AllLoadable(segs, |image|)
                && Enough(sp.at.Keys, old(vmm.pmm.freeCount), ImageTables(segs, |segs|), ImagePages(segs, |segs|))
      ensures !ok && AllLoadable(segs, |image|) ==> vmm.pmm.Free() == {}
      ensures ok ==> Ready(sp') && forall i :: 0 <= i < |segs| ==> SegmentReads(phys, sp'.pages, image, segs[i])
      ensures ok ==> forall p :: p in sp.pages ==> p in sp'.pages && sp'.pages[p] == sp.pages[p]
      ensures ok ==> forall p: nat :: p in sp'.pages <==> p in sp.pages || PageNeeded(segs, p)
      ensures ok ==> brk == PageUp(ImageEnd(segs, |segs|)) * 4096 && forall i :: 0 <= i < |segs| ==>
                EndPage(segs[i]) * 4096 <= brk
    {
      hide *;
      ok, sp' := true, sp;
      var imageEnd := 0;
      AllShownNone(phys, sp.pages, image);
      assert segs[..0] == [];
      ghost var keys, free := sp.at.Keys, vmm.pmm.freeCount;
      ImageNone(segs);
      TookNone(keys, free, 0);
      LoadableNone(segs, |image|);
      EndStep(segs, 0);
      GrownByNone(sp.pages, segs);
      for i := 0 to |segs|
        invariant Ready(sp') && sp'.root == sp.root && AllShown(phys, sp'.pages, image, segs[..i])
        invariant GrownBy(sp.pages, sp'.pages, segs, i)
        invariant imageEnd == ImageEnd(segs, i) && AllLoadable(segs[..i], |image|)
        invariant Took(keys, free, sp'.at.Keys, vmm.pmm.freeCount, ImageTables(segs, i), ImagePages(segs, i))
      {
        ghost var pages0 := sp'.pages;
        ghost var keys0, free0 := sp'.at.Keys, vmm.pmm.freeCount;
        EnoughSegment(keys, free, keys0, free0, segs, i);
        LoadableStep(segs, i, |image|);
        EndStep(segs, i + 1);
        StillFree(sp.pages, pages0, segs, i);
        ok, sp' := LoadSegment(sp', root, image, segs[i], segs[..i]);
        if !ok {
          return false, 0, sp';
        }
        TookSegment(keys, free, keys0, free0, sp'.at.Keys, vmm.pmm.freeCount, segs, i);
        AllShownAppend(phys, sp'.pages, image, segs, i);
        MoreSegments(phys, sp.pages, pages0, sp'.pages, image, segs, i);
        imageEnd := Max(imageEnd, segs[i].vaddr + segs[i].memsz);
      }
      assert segs[..|segs|] == segs;
      TookEnough(keys, free, sp'.at.Keys, vmm.pmm.freeCount, ImageTables(segs, |segs|), ImagePages(segs, |segs|));
      brk := PageUp(imageEnd) * 4096;
      ImageEndLeast(segs, |segs|);
      BrkAbove(segs, imageEnd);
      PagesExactly(sp.pages, sp'.pages, segs);
      forall i | 0 <= i < |segs| ensures SegmentReads(phys, sp'.pages, image, segs[i]) {
        ShownReads(phys, sp'.pages, image, segs, i);
      }
    }
  }

  lemma AllShownNone(phys: seq<Byte>, pages: map<nat, Pte>, image: seq<Byte>)
    ensures AllShown(phys, pages, image, [])
  {
  }

  /** Page `p` belongs to one of the first `n` segments. */
  ghost predicate InSegments(segs: seq<Segment>, n: nat, p: nat) {
    exists k :: 0 <= k < n && k < |segs| && FirstPage(segs[k]) <= p < EndPage(segs[k])
  }

  /** `now` holds the pages of `before`, unchanged, and those of the first `n` segments. */
  ghost predicate GrownBy(before: map<nat, Pte>, now: map<nat, Pte>, segs: seq<Segment>, n: nat) {
    && (forall p :: p in before ==> p in now && now[p] == before[p])
    && (forall p: nat :: p in now <==> p in before || InSegments(segs, n, p))
  }

  lemma GrownByNone(pages: map<nat, Pte>, segs: seq<Segment>)
    ensures GrownBy(pages, pages, segs, 0)
  {
  }

  lemma StillFree(before: map<nat, Pte>, now: map<nat, Pte>, segs: seq<Segment>, i: nat)
    requires SegmentsApart(segs) && i < |segs| && PagesFree(before.Keys, FirstPage(segs[i]), EndPage(segs[i]))
    requires GrownBy(before, now, segs, i)
    ensures PagesFree(now.Keys, FirstPage(segs[i]), EndPage(segs[i]))
  {
    hide FirstPage, EndPage;
    forall p | p in now ensures !(FirstPage(segs[i]) <= p < EndPage(segs[i])) {
      if p !in before {
        var k :| 0 <= k < i && k < |segs| && FirstPage(segs[k]) <= p < EndPage(segs[k]);
      }
    }
  }

  lemma MoreSegments(phys: seq<Byte>, before: map<nat, Pte>, now: map<nat, Pte>, next: map<nat, Pte>, image: seq<Byte>,
                     segs: seq<Segment>, i: nat)
    requires i < |segs| && GrownBy(before, now, segs, i) && OnlyNew(now, next, FirstPage(segs[i]), EndPage(segs[i]))
    requires segs[i].memsz > 0 ==> Shows(phys, next, image, segs[i], FirstPage(segs[i]), EndPage(segs[i]))
    ensures GrownBy(before, next, segs, i + 1)
  {
    NoPages(segs[i]);
    hide FirstPage, EndPage, UserByte, SegmentByte, Access;
    forall p: nat ensures InSegments(segs, i + 1, p) <==>
                            InSegments(segs, i, p) || FirstPage(segs[i]) <= p < EndPage(segs[i])
    {
      InSegmentsStep(segs, i, p);
    }
  }

  lemma NoPages(s: Segment)
    ensures s.memsz == 0 ==> EndPage(s) == FirstPage(s)
  {
  }

  lemma InSegmentsStep(segs: seq<Segment>, i: nat, p: nat)
    requires i < |segs|
    ensures InSegments(segs, i + 1, p) <==> InSegments(segs, i, p) || FirstPage(segs[i]) <= p < EndPage(segs[i])
  {
    hide FirstPage, EndPage;
  }

  // ---------- in addresses ----------

  /** Every address of the segment reads as its file byte, or as zero past the file's part, and can be written exactly
      if the segment is writable; it can be executed exactly if the segment is executable. */
  ghost predicate SegmentReads(phys: seq<Byte>, pages: map<nat, Pte>, image: seq<Byte>, s: Segment) {
    forall v: nat :: s.vaddr <= v < s.vaddr + s.memsz ==>
      && s.offset + s.filesz <= |image|
      && UserByte(phys, pages, v) == Some(if v < s.vaddr + s.filesz then image[s.offset + (v - s.vaddr)] else 0)
      && Lookup(pages, v, true).Some? == s.writable
      && v / 4096 in pages && (pages[v / 4096].other == NO_EXEC <==> !s.executable)
  }

  /** Some segment has an address in page `p`. */
  ghost predicate PageNeeded(segs: seq<Segment>, p: nat) {
    exists i: nat, v: nat :: AddressIn(segs, i, v) && v / 4096 == p
  }

  predicate AddressIn(segs: seq<Segment>, i: nat, v: nat) {
    i < |segs| && segs[i].vaddr <= v < segs[i].vaddr + segs[i].memsz
  }

  lemma ShownReads(phys: seq<Byte>, pages: map<nat, Pte>, image: seq<Byte>, segs: seq<Segment>, i: nat)
    requires i < |segs| && AllShown(phys, pages, image, segs)
    ensures SegmentReads(phys, pages, image, segs[i])
  {
    var s := segs[i];
    if s.memsz > 0 {
      assert Shows(phys, pages, image, s, FirstPage(s), EndPage(s));
      hide AllShown;
      forall v: nat | s.vaddr <= v < s.vaddr + s.memsz
        ensures UserByte(phys, pages, v) == Some(if v < s.vaddr + s.filesz then image[s.offset + (v - s.vaddr)] else 0)
        ensures Lookup(pages, v, true).Some? == s.writable
        ensures v / 4096 in pages && (pages[v / 4096].other == NO_EXEC <==> !s.executable)
      {
        AddressPage(s, v);
        hide FirstPage, EndPage;
        assert UserByte(phys, pages, v) == Some(SegmentByte(image, s, v));
      }
    }
  }

  lemma AddressPage(s: Segment, v: nat)
    requires s.vaddr <= v < s.vaddr + s.memsz
    ensures FirstPage(s) <= v / 4096 < EndPage(s)
  {
  }

  /** The pages of a segment are those of its addresses. */
  lemma PageAddresses(s: Segment, p: nat) returns (v: nat)
    requires FirstPage(s) <= p < EndPage(s)
    ensures s.vaddr <= v < s.vaddr + s.memsz && v / 4096 == p
  {
    v := if p == FirstPage(s) then s.vaddr else p * 4096;
  }

  lemma PagesExactly(before: map<nat, Pte>, now: map<nat, Pte>, segs: seq<Segment>)
    requires GrownBy(before, now, segs, |segs|)
    ensures forall p :: p in before ==> p in now && now[p] == before[p]
    ensures forall p: nat :: p in now <==> p in before || PageNeeded(segs, p)
  {
    forall p: nat ensures InSegments(segs, |segs|, p) <==> PageNeeded(segs, p) { NeededIs(segs, p); }
    hide InSegments, PageNeeded;
  }

  lemma NeededIs(segs: seq<Segment>, p: nat)
    ensures InSegments(segs, |segs|, p) <==> PageNeeded(segs, p)
  {
    if InSegments(segs, |segs|, p) {
      var k :| 0 <= k < |segs| && FirstPage(segs[k]) <= p < EndPage(segs[k]);
      var v := PageAddresses(segs[k], p);
      assert AddressIn(segs, k, v);
    }
    if PageNeeded(segs, p) {
      var i: nat, v: nat :| AddressIn(segs, i, v) && v / 4096 == p;
      AddressPage(segs[i], v);
    }
  }

  lemma BrkAbove(segs: seq<Segment>, imageEnd: nat)
    requires forall k :: 0 <= k < |segs| ==> segs[k].vaddr + segs[k].memsz <= imageEnd
    ensures forall k :: 0 <= k < |segs| ==> EndPage(segs[k]) * 4096 <= PageUp(imageEnd) * 4096
  {
  }
}
