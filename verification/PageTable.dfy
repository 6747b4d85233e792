/** The two-level shadow page table (ShadowMemory.h) as atomic steps of any number of
    threads: lookups that install pages with a compare-and-swap and keep the page of a
    lost race in a per-thread cache. */
module PageTable {
  import opened AddressSplit

  type Thread = nat

  /** The address of an allocated page of either level. */
  type Page = nat

  /** A level-two cell: its first-level page and the index in it. */
  datatype Cell = Cell(base: Page, index: nat)

  /** Where a page is; `K` names the cells it may be installed in. */
  datatype Home<K> = Unallocated | Installed(at: K) | Cached(t: Thread) | InHand(t: Thread) | Leaked

  /** The pages of one level: each thread's spare page and fresh page, and the place of every page. */
  datatype Pool<K> = Pool(spare: map<Thread, Page>, hands: map<Thread, Page>, home: map<Page, Home<K>>)

  /** A lookup of `addr`, named after its next step. */
  datatype Pc =
    | Idle
    | LoadL1(addr: nat)
    | TakeL1(addr: nat)
    | CasL1(addr: nat)
    | SaveL1(addr: nat)
    | LoadBase(addr: nat)
    | LoadEntry(addr: nat, base: Page)
    | TakeShadow(addr: nat)
    | CasBase(addr: nat)
    | CasEntry(addr: nat, base: Page)
    | SaveShadow(addr: nat)
    | ReadBase(addr: nat)
    | ReadEntry(addr: nat, base: Page)

  /** `l1` and `l2` are the cells that are not null; `answers` are the pages returned so far. */
  datatype State = State(
    l1: map<nat, Page>,
    l2: map<Cell, Page>,
    l1Pages: Pool<nat>,
    shadowPages: Pool<Cell>,
    pcs: map<Thread, Pc>,
    answers: set<(nat, Page)>)

  datatype Action =
    | Begin(t: Thread, addr: nat)
    | Step(t: Thread, newPage: Page)

  function Init(): State {
    State(map[], map[], Pool(map[], map[], map[]), Pool(map[], map[], map[]), map[], {})
  }

  function PcOf(s: State, t: Thread): Pc {
    if t in s.pcs then s.pcs[t] else Idle
  }

  function HomeOf<K>(p: Pool<K>, page: Page): Home<K> {
    if page in p.home then p.home[page] else Unallocated
  }

  /** `_getL1Page`, `_getShadowPage`: the thread's spare page if it has one, otherwise a new one. */
  function Take<K>(p: Pool<K>, t: Thread, newPage: Page): Pool<K> {
    var page := if t in p.spare then p.spare[t] else newPage;
    Pool(p.spare - {t}, p.hands[t := page], p.home[page := InHand(t)])
  }

  /** `_saveL1Page`, `_saveShadowPage`: a page that finds the cache full is lost. */
  function Save<K>(p: Pool<K>, t: Thread): Pool<K> {
    if t !in p.hands then p
    else if t in p.spare then Pool(p.spare, p.hands - {t}, p.home[p.hands[t] := Leaked])
    else Pool(p.spare[t := p.hands[t]], p.hands - {t}, p.home[p.hands[t] := Cached(t)])
  }

  function Install<K>(p: Pool<K>, t: Thread, k: K): Pool<K> {
    if t !in p.hands then p else Pool(p.spare, p.hands - {t}, p.home[p.hands[t] := Installed(k)])
  }

  /** An allocation returns a page that is not in use. */
  predicate Enabled(s: State, a: Action) {
    match a
    case Begin(t, _) => PcOf(s, t).Idle?
    case Step(t, newPage) =>
      && !PcOf(s, t).Idle?
      && (PcOf(s, t).TakeL1? ==> HomeOf(s.l1Pages, newPage).Unallocated?)
      && (PcOf(s, t).TakeShadow? ==> HomeOf(s.shadowPages, newPage).Unallocated?)
  }

  function Goto(s: State, t: Thread, pc: Pc): State {
    s.(pcs := s.pcs[t := pc])
  }

  /** The level-two cell of an address under a first-level page. */
  function At(l: Layout, base: Page, a: nat): Cell {
    Cell(base, L2Index(l, a))
  }

  /** Does a step read through the first-level entry of its address? */
  predicate Derefs(pc: Pc) {
    pc.LoadBase? || pc.CasBase? || pc.ReadBase?
  }

  /** A null first-level entry must not be read through: that would be a crash. */
  predicate Crashes(l: Layout, s: State, t: Thread) {
    var pc := PcOf(s, t);
    || (Derefs(pc) && L1Index(l, pc.addr) !in s.l1)
    || (pc.ReadEntry? && At(l, pc.base, pc.addr) !in s.l2)
  }

  function DoStep(l: Layout, s: State, t: Thread, newPage: Page): State
    requires !Crashes(l, s, t)
  {
    match PcOf(s, t)
    case Idle => s
    case LoadL1(a) => Goto(s, t, if L1Index(l, a) in s.l1 then LoadBase(a) else TakeL1(a))
    case TakeL1(a) => Goto(s, t, CasL1(a)).(l1Pages := Take(s.l1Pages, t, newPage))
    case CasL1(a) =>
      var i := L1Index(l, a);
      if i in s.l1 || t !in s.l1Pages.hands then Goto(s, t, SaveL1(a))
      else Goto(s, t, LoadBase(a)).(l1 := s.l1[i := s.l1Pages.hands[t]], l1Pages := Install(s.l1Pages, t, i))
    case SaveL1(a) => Goto(s, t, LoadBase(a)).(l1Pages := Save(s.l1Pages, t))
    case LoadBase(a) => Goto(s, t, LoadEntry(a, s.l1[L1Index(l, a)]))
    case LoadEntry(a, base) => Goto(s, t, if At(l, base, a) in s.l2 then ReadBase(a) else TakeShadow(a))
    case TakeShadow(a) => Goto(s, t, CasBase(a)).(shadowPages := Take(s.shadowPages, t, newPage))
    case CasBase(a) => Goto(s, t, CasEntry(a, s.l1[L1Index(l, a)]))
    case CasEntry(a, base) =>
      var i := At(l, base, a);
      if i in s.l2 || t !in s.shadowPages.hands then Goto(s, t, SaveShadow(a))
      else Goto(s, t, ReadBase(a)).(l2 := s.l2[i := s.shadowPages.hands[t]], shadowPages := Install(s.shadowPages, t, i))
    case SaveShadow(a) => Goto(s, t, ReadBase(a)).(shadowPages := Save(s.shadowPages, t))
    case ReadBase(a) => Goto(s, t, ReadEntry(a, s.l1[L1Index(l, a)]))
    case ReadEntry(a, base) => Goto(s, t, Idle).(answers := s.answers + {(a, s.l2[At(l, base, a)])})
  }

  function Apply(l: Layout, s: State, a: Action): State
    requires a.Step? ==> !Crashes(l, s, a.t)
  {
    match a
    case Begin(t, addr) => Goto(s, t, LoadL1(addr))
    case Step(t, newPage) => DoStep(l, s, t, newPage)
  }

  ghost predicate Next(l: Layout, s: State, a: Action, s': State) {
    Enabled(s, a) && (a.Step? ==> !Crashes(l, s, a.t)) && s' == Apply(l, s, a)
  }

  ghost predicate Run(l: Layout, acts: seq<Action>, s: State) {
    if acts == [] then s == Init()
    else
      var n := |acts| - 1;
      exists s0 | Run(l, acts[..n], s0) :: Next(l, s0, acts[n], s)
  }

  // Where the pages of one level are.

  /** Each page is where its home says, and nowhere else. */
  ghost predicate PlacesRight<K(!new)>(p: Pool<K>, cells: map<K, Page>) {
    && (forall k | k in cells :: HomeOf(p, cells[k]) == Installed(k))
    && (forall t | t in p.spare :: HomeOf(p, p.spare[t]) == Cached(t) && t !in p.hands)
    && (forall t | t in p.hands :: HomeOf(p, p.hands[t]) == InHand(t))
    && (forall page :: HomeRight(p, cells, page))
  }

  predicate HomeRight<K>(p: Pool<K>, cells: map<K, Page>, page: Page) {
    match HomeOf(p, page)
    case Unallocated => true
    case Installed(k) => k in cells && cells[k] == page
    case Cached(t) => t in p.spare && p.spare[t] == page
    case InHand(t) => t in p.hands && p.hands[t] == page
    case Leaked => false
  }

  lemma TakePlaces<K(!new)>(p: Pool<K>, cells: map<K, Page>, t: Thread, newPage: Page)
    requires PlacesRight(p, cells) && HomeOf(p, newPage).Unallocated? && t !in p.hands
    ensures PlacesRight(Take(p, t, newPage), cells)
  {
    var p' := Take(p, t, newPage);
    forall page ensures HomeRight(p', cells, page) { assert HomeRight(p, cells, page); }
  }

  /** Whoever saves a page finds its own cache empty, so no page is lost. */
  lemma SavePlaces<K(!new)>(p: Pool<K>, cells: map<K, Page>, t: Thread)
    requires PlacesRight(p, cells) && t in p.hands
    ensures t !in p.spare && PlacesRight(Save(p, t), cells)
  {
    var p' := Save(p, t);
    forall page ensures HomeRight(p', cells, page) { assert HomeRight(p, cells, page); }
  }

  lemma InstallPlaces<K(!new)>(p: Pool<K>, cells: map<K, Page>, t: Thread, k: K)
    requires PlacesRight(p, cells) && t in p.hands && k !in cells
    ensures PlacesRight(Install(p, t, k), cells[k := p.hands[t]])
  {
    var p', cells' := Install(p, t, k), cells[k := p.hands[t]];
    forall page ensures HomeRight(p', cells', page) { assert HomeRight(p, cells, page); }
  }

  // The invariant.

  predicate HoldsL1(pc: Pc) { pc.CasL1? || pc.SaveL1? }

  predicate HoldsShadow(pc: Pc) { pc.CasBase? || pc.CasEntry? || pc.SaveShadow? }

  /** Has the lookup seen its first-level entry set? */
  predicate PastL1(pc: Pc) {
    pc.SaveL1? || pc.LoadBase? || pc.LoadEntry? || pc.TakeShadow? || HoldsShadow(pc) || PastL2(pc)
  }

  predicate PastL2(pc: Pc) { pc.SaveShadow? || pc.ReadBase? || pc.ReadEntry? }

  predicate KnowsBase(pc: Pc) { pc.LoadEntry? || pc.CasEntry? || pc.ReadEntry? }

  /** The shadow page of an address, once both its entries are set. */
  predicate Resolved(l: Layout, s: State, a: nat) {
    L1Index(l, a) in s.l1 && At(l, s.l1[L1Index(l, a)], a) in s.l2
  }

  predicate LookupRight(l: Layout, s: State, t: Thread) {
    var pc := PcOf(s, t);
    && (t in s.l1Pages.hands <==> HoldsL1(pc))
    && (t in s.shadowPages.hands <==> HoldsShadow(pc))
    && (PastL1(pc) ==> L1Index(l, pc.addr) in s.l1)
    && (PastL1(pc) && KnowsBase(pc) ==> pc.base == s.l1[L1Index(l, pc.addr)])
    && (PastL2(pc) ==> Resolved(l, s, pc.addr))
  }

  predicate AnswerRight(l: Layout, s: State, a: nat, page: Page) {
    Resolved(l, s, a) && s.l2[At(l, s.l1[L1Index(l, a)], a)] == page
  }

  /** First-level pages that are not installed hold no entry: they are still all zero. */
  ghost predicate BasesInstalled(s: State) {
    forall c | c in s.l2 :: HomeOf(s.l1Pages, c.base).Installed?
  }

  ghost predicate Inv(l: Layout, s: State) {
    && PlacesRight(s.l1Pages, s.l1) && PlacesRight(s.shadowPages, s.l2) && BasesInstalled(s)
    && (forall t :: LookupRight(l, s, t))
    && (forall q | q in s.answers :: AnswerRight(l, s, q.0, q.1))
  }

  /** Table entries go from null to one page and never change. */
  ghost predicate Grows(s: State, s': State) {
    && (forall i | i in s.l1 :: i in s'.l1 && s'.l1[i] == s.l1[i])
    && (forall c | c in s.l2 :: c in s'.l2 && s'.l2[c] == s.l2[c])
  }

  /** What a lookup has seen stays true while the table grows. */
  lemma GrowsKeeps(l: Layout, s: State, s': State, t: Thread)
    requires Grows(s, s') && LookupRight(l, s, t) && PcOf(s', t) == PcOf(s, t)
    requires t in s'.l1Pages.hands <==> t in s.l1Pages.hands
    requires t in s'.shadowPages.hands <==> t in s.shadowPages.hands
    ensures LookupRight(l, s', t)
  {
  }

  lemma StepGrows(l: Layout, s: State, t: Thread, newPage: Page)
    requires !Crashes(l, s, t)
    ensures Grows(s, DoStep(l, s, t, newPage))
  {
  }

  // The moving thread's own view after its step, one stretch of the lookup at a time.

  lemma L1MoverRight(l: Layout, s: State, t: Thread, newPage: Page)
    requires !Crashes(l, s, t) && LookupRight(l, s, t)
    requires var pc := PcOf(s, t); pc.Idle? || pc.LoadL1? || pc.TakeL1?
    ensures LookupRight(l, DoStep(l, s, t, newPage), t)
  {
  }

  lemma L1HolderRight(l: Layout, s: State, t: Thread, newPage: Page)
    requires !Crashes(l, s, t) && LookupRight(l, s, t) && HoldsL1(PcOf(s, t))
    ensures LookupRight(l, DoStep(l, s, t, newPage), t)
  {
  }

  lemma ShadowMoverRight(l: Layout, s: State, t: Thread, newPage: Page)
    requires !Crashes(l, s, t) && LookupRight(l, s, t)
    requires var pc := PcOf(s, t); pc.LoadBase? || pc.LoadEntry?
    ensures LookupRight(l, DoStep(l, s, t, newPage), t)
  {
  }

  lemma ShadowTakerRight(l: Layout, s: State, t: Thread, newPage: Page)
    requires !Crashes(l, s, t) && LookupRight(l, s, t)
    requires var pc := PcOf(s, t); pc.TakeShadow? || pc.CasBase?
    ensures LookupRight(l, DoStep(l, s, t, newPage), t)
  {
  }

  lemma EntryMoverRight(l: Layout, s: State, t: Thread, newPage: Page)
    requires !Crashes(l, s, t) && LookupRight(l, s, t) && PcOf(s, t).CasEntry?
    ensures LookupRight(l, DoStep(l, s, t, newPage), t)
  {
  }

  lemma LastMoverRight(l: Layout, s: State, t: Thread, newPage: Page)
    requires !Crashes(l, s, t) && LookupRight(l, s, t) && PastL2(PcOf(s, t))
    ensures LookupRight(l, DoStep(l, s, t, newPage), t)
  {
  }

  lemma MoverRight(l: Layout, s: State, t: Thread, newPage: Page)
    requires !Crashes(l, s, t) && LookupRight(l, s, t)
    ensures LookupRight(l, DoStep(l, s, t, newPage), t)
  {
    var pc := PcOf(s, t);
    if pc.Idle? || pc.LoadL1? || pc.TakeL1? {
      L1MoverRight(l, s, t, newPage);
    } else if HoldsL1(pc) {
      L1HolderRight(l, s, t, newPage);
    } else if pc.TakeShadow? || pc.CasBase? {
      ShadowTakerRight(l, s, t, newPage);
    } else if pc.CasEntry? {
      EntryMoverRight(l, s, t, newPage);
    } else if PastL2(pc) {
      LastMoverRight(l, s, t, newPage);
    } else {
      ShadowMoverRight(l, s, t, newPage);
    }
  }

  lemma PoolKeeps<K>(p: Pool<K>, t: Thread, newPage: Page, k: K, u: Thread)
    requires u != t
    ensures u in Take(p, t, newPage).hands <==> u in p.hands
    ensures u in Save(p, t).hands <==> u in p.hands
    ensures u in Install(p, t, k).hands <==> u in p.hands
  {
  }

  lemma L1HandsKeep(l: Layout, s: State, t: Thread, newPage: Page, u: Thread)
    requires !Crashes(l, s, t) && u != t
    ensures u in DoStep(l, s, t, newPage).l1Pages.hands <==> u in s.l1Pages.hands
  {
    var pc := PcOf(s, t);
    if pc.TakeL1? || HoldsL1(pc) {
      PoolKeeps(s.l1Pages, t, newPage, L1Index(l, pc.addr), u);
    } else {
      assert DoStep(l, s, t, newPage).l1Pages == s.l1Pages;
    }
  }

  lemma ShadowHandsKeep(l: Layout, s: State, t: Thread, newPage: Page, u: Thread)
    requires !Crashes(l, s, t) && u != t
    ensures u in DoStep(l, s, t, newPage).shadowPages.hands <==> u in s.shadowPages.hands
  {
    var pc := PcOf(s, t);
    if pc.TakeShadow? || pc.SaveShadow? {
      PoolKeeps(s.shadowPages, t, newPage, Cell(0, 0), u);
    } else if pc.CasEntry? {
      PoolKeeps(s.shadowPages, t, newPage, At(l, pc.base, pc.addr), u);
    } else {
      assert DoStep(l, s, t, newPage).shadowPages == s.shadowPages;
    }
  }

  predicate Early(pc: Pc) {
    pc.Idle? || pc.LoadL1? || pc.TakeL1? || HoldsL1(pc) || pc.LoadBase? || pc.LoadEntry?
  }

  lemma OthersStayEarly(l: Layout, s: State, t: Thread, newPage: Page, u: Thread)
    requires !Crashes(l, s, t) && u != t && Early(PcOf(s, t))
    ensures PcOf(DoStep(l, s, t, newPage), u) == PcOf(s, u)
  {
  }

  lemma OthersStayLate(l: Layout, s: State, t: Thread, newPage: Page, u: Thread)
    requires !Crashes(l, s, t) && u != t && !Early(PcOf(s, t))
    ensures PcOf(DoStep(l, s, t, newPage), u) == PcOf(s, u)
  {
  }

  lemma OthersStay(l: Layout, s: State, t: Thread, newPage: Page, u: Thread)
    requires !Crashes(l, s, t) && u != t
    ensures PcOf(DoStep(l, s, t, newPage), u) == PcOf(s, u)
  {
    if Early(PcOf(s, t)) { OthersStayEarly(l, s, t, newPage, u); } else { OthersStayLate(l, s, t, newPage, u); }
  }

  lemma OthersRight(l: Layout, s: State, s': State, t: Thread, newPage: Page, u: Thread)
    requires !Crashes(l, s, t) && LookupRight(l, s, u) && u != t && s' == DoStep(l, s, t, newPage) && Grows(s, s')
    ensures LookupRight(l, s', u)
  {
    OthersStay(l, s, t, newPage, u);
    L1HandsKeep(l, s, t, newPage, u);
    ShadowHandsKeep(l, s, t, newPage, u);
    GrowsKeeps(l, s, s', u);
  }

  lemma L1PoolRight(l: Layout, s: State, t: Thread, newPage: Page)
    requires PlacesRight(s.l1Pages, s.l1) && LookupRight(l, s, t) && Enabled(s, Step(t, newPage)) && !Crashes(l, s, t)
    ensures var s' := DoStep(l, s, t, newPage); PlacesRight(s'.l1Pages, s'.l1)
  {
    var s', pc := DoStep(l, s, t, newPage), PcOf(s, t);
    if pc.TakeL1? {
      TakePlaces(s.l1Pages, s.l1, t, newPage);
    } else if pc.CasL1? && L1Index(l, pc.addr) !in s.l1 {
      InstallPlaces(s.l1Pages, s.l1, t, L1Index(l, pc.addr));
    } else if pc.SaveL1? {
      SavePlaces(s.l1Pages, s.l1, t);
    } else {
      assert s'.l1Pages == s.l1Pages && s'.l1 == s.l1;
    }
  }

  lemma ShadowPoolRight(l: Layout, s: State, t: Thread, newPage: Page)
    requires PlacesRight(s.shadowPages, s.l2) && LookupRight(l, s, t) && Enabled(s, Step(t, newPage)) && !Crashes(l, s, t)
    ensures var s' := DoStep(l, s, t, newPage); PlacesRight(s'.shadowPages, s'.l2)
  {
    var s', pc := DoStep(l, s, t, newPage), PcOf(s, t);
    if pc.TakeShadow? {
      TakePlaces(s.shadowPages, s.l2, t, newPage);
    } else if pc.CasEntry? && At(l, pc.base, pc.addr) !in s.l2 {
      InstallPlaces(s.shadowPages, s.l2, t, At(l, pc.base, pc.addr));
    } else if pc.SaveShadow? {
      SavePlaces(s.shadowPages, s.l2, t);
    } else {
      assert s'.shadowPages == s.shadowPages && s'.l2 == s.l2;
    }
  }

  /** An installed first-level page stays installed. */
  lemma InstalledStays(l: Layout, s: State, t: Thread, newPage: Page, page: Page)
    requires PlacesRight(s.l1Pages, s.l1) && LookupRight(l, s, t) && Enabled(s, Step(t, newPage)) && !Crashes(l, s, t)
    requires HomeOf(s.l1Pages, page).Installed?
    ensures HomeOf(DoStep(l, s, t, newPage).l1Pages, page).Installed?
  {
    var s', pc := DoStep(l, s, t, newPage), PcOf(s, t);
    if !pc.TakeL1? && !HoldsL1(pc) { assert s'.l1Pages == s.l1Pages; }
  }

  /** A new second-level entry is in the page its lookup has read from the table. */
  lemma NewEntryBase(l: Layout, s: State, t: Thread, newPage: Page, c: Cell)
    requires LookupRight(l, s, t) && !Crashes(l, s, t)
    requires c in DoStep(l, s, t, newPage).l2 && c !in s.l2
    ensures exists i :: i in s.l1 && s.l1[i] == c.base
  {
    var pc := PcOf(s, t);
    assert pc.CasEntry?;
    assert s.l1[L1Index(l, pc.addr)] == c.base;
  }

  lemma StepBases(l: Layout, s: State, t: Thread, newPage: Page)
    requires Inv(l, s) && Enabled(s, Step(t, newPage)) && !Crashes(l, s, t)
    ensures BasesInstalled(DoStep(l, s, t, newPage))
  {
    var s' := DoStep(l, s, t, newPage);
    assert LookupRight(l, s, t);
    forall c | c in s'.l2 ensures HomeOf(s'.l1Pages, c.base).Installed? {
      if c !in s.l2 { NewEntryBase(l, s, t, newPage, c); }
      InstalledStays(l, s, t, newPage, c.base);
    }
  }

  lemma StepInv(l: Layout, s: State, t: Thread, newPage: Page)
    requires Inv(l, s) && Enabled(s, Step(t, newPage))
    ensures !Crashes(l, s, t) && Inv(l, DoStep(l, s, t, newPage))
  {
    assert LookupRight(l, s, t);
    var s' := DoStep(l, s, t, newPage);
    L1PoolRight(l, s, t, newPage);
    ShadowPoolRight(l, s, t, newPage);
    StepBases(l, s, t, newPage);
    StepGrows(l, s, t, newPage);
    forall u ensures LookupRight(l, s', u) {
      if u == t { MoverRight(l, s, t, newPage); } else { OthersRight(l, s, s', t, newPage, u); }
    }
    AnswersRight(l, s, t, newPage);
  }

  lemma AnswersRight(l: Layout, s: State, t: Thread, newPage: Page)
    requires !Crashes(l, s, t) && LookupRight(l, s, t)
    requires forall q | q in s.answers :: AnswerRight(l, s, q.0, q.1)
    ensures var s' := DoStep(l, s, t, newPage); forall q | q in s'.answers :: AnswerRight(l, s', q.0, q.1)
  {
    var s' := DoStep(l, s, t, newPage);
    StepGrows(l, s, t, newPage);
    forall q | q in s'.answers ensures AnswerRight(l, s', q.0, q.1) {
      if q in s.answers { assert AnswerRight(l, s, q.0, q.1); }
    }
  }

  lemma BeginLookup(l: Layout, s: State, t: Thread, addr: nat, u: Thread)
    requires LookupRight(l, s, u) && PcOf(s, t).Idle?
    ensures LookupRight(l, Goto(s, t, LoadL1(addr)), u)
  {
  }

  lemma BeginInv(l: Layout, s: State, t: Thread, addr: nat)
    requires Inv(l, s) && PcOf(s, t).Idle?
    ensures Inv(l, Goto(s, t, LoadL1(addr)))
  {
    var s' := Goto(s, t, LoadL1(addr));
    forall u ensures LookupRight(l, s', u) {
      assert LookupRight(l, s, u);
      BeginLookup(l, s, t, addr, u);
    }
    forall q | q in s'.answers ensures AnswerRight(l, s', q.0, q.1) { assert AnswerRight(l, s, q.0, q.1); }
  }

  lemma ApplyInv(l: Layout, s: State, a: Action)
    requires Inv(l, s) && Enabled(s, a)
    ensures a.Step? ==> !Crashes(l, s, a.t)
    ensures Inv(l, Apply(l, s, a)) && Grows(s, Apply(l, s, a))
  {
    match a
    case Begin(t, addr) => BeginInv(l, s, t, addr);
    case Step(t, newPage) =>
      StepInv(l, s, t, newPage);
      StepGrows(l, s, t, newPage);
  }

  lemma {:induction false} RunInv(l: Layout, acts: seq<Action>, s: State)
    requires Run(l, acts, s)
    ensures Inv(l, s)
  {
    if acts != [] {
      var n := |acts| - 1;
      var s0 :| Run(l, acts[..n], s0) && Next(l, s0, acts[n], s);
      RunInv(l, acts[..n], s0);
      ApplyInv(l, s0, acts[n]);
    }
  }

  /** No enabled step ever reads through a null entry, so every enabled step continues the run. */
  lemma NoNullIsDereferenced(l: Layout, acts: seq<Action>, s: State, a: Action)
    requires Run(l, acts, s) && Enabled(s, a)
    ensures a.Step? ==> !Crashes(l, s, a.t)
    ensures Run(l, acts + [a], Apply(l, s, a))
  {
    RunInv(l, acts, s);
    ApplyInv(l, s, a);
    RunExtends(l, acts, s, a, Apply(l, s, a));
  }

  lemma RunExtends(l: Layout, acts: seq<Action>, s: State, a: Action, s': State)
    requires Run(l, acts, s) && Next(l, s, a, s')
    ensures Run(l, acts + [a], s')
  {
    assert (acts + [a])[..|acts|] == acts;
  }

  /** A first-level page occurs once in the table, and so does a shadow page. */
  lemma InstalledOnce(l: Layout, s: State, a: nat, b: nat)
    requires Inv(l, s) && Resolved(l, s, a) && Resolved(l, s, b)
    requires s.l2[At(l, s.l1[L1Index(l, a)], a)] == s.l2[At(l, s.l1[L1Index(l, b)], b)]
    ensures L1Index(l, a) == L1Index(l, b) && L2Index(l, a) == L2Index(l, b)
  {
    var i, j := L1Index(l, a), L1Index(l, b);
    assert HomeOf(s.shadowPages, s.l2[At(l, s.l1[i], a)]) == Installed(At(l, s.l1[i], a));
    assert HomeOf(s.shadowPages, s.l2[At(l, s.l1[j], b)]) == Installed(At(l, s.l1[j], b));
    assert HomeOf(s.l1Pages, s.l1[i]) == Installed(i) && HomeOf(s.l1Pages, s.l1[j]) == Installed(j);
  }

  /** The slot of an address: an entry of a shadow page. */
  function Slot(l: Layout, a: nat, page: Page): (Page, nat) {
    (page, PageIndex(l, a))
  }

  /** All answers of a run agree: two lookups return the same slot exactly when their
      addresses lie in the same aligned block. */
  lemma LookupsAgree(l1Bits: nat, l2Bits: nat, g: Granularity, acts: seq<Action>, s: State, q: (nat, Page), r: (nat, Page))
    requires ValidBits(l1Bits, l2Bits, g)
    requires Run(MakeLayout(l1Bits, l2Bits, g), acts, s) && q in s.answers && r in s.answers
    ensures var l := MakeLayout(l1Bits, l2Bits, g);
      Slot(l, q.0, q.1) == Slot(l, r.0, r.1) <==> Block(g, q.0) == Block(g, r.0)
  {
    var l := MakeLayout(l1Bits, l2Bits, g);
    RunInv(l, acts, s);
    assert AnswerRight(l, s, q.0, q.1) && AnswerRight(l, s, r.0, r.1);
    SameIndicesIffSameBlock(l1Bits, l2Bits, g, q.0, r.0);
    if q.1 == r.1 { InstalledOnce(l, s, q.0, r.0); }
  }

  // Conservation.

  ghost predicate IsInstalled<K(!new)>(cells: map<K, Page>, page: Page) {
    exists k | k in cells :: cells[k] == page
  }

  ghost predicate IsSpare<K>(p: Pool<K>, page: Page) {
    exists t | t in p.spare :: p.spare[t] == page
  }

  ghost predicate IsInHand<K>(p: Pool<K>, page: Page) {
    exists t | t in p.hands :: p.hands[t] == page
  }

  /** Each allocated page is in exactly one place: a table entry, one thread's cache or
      one thread's hand; and no page is in two entries, two caches or two hands. */
  lemma PlacesExclude<K(!new)>(p: Pool<K>, cells: map<K, Page>, page: Page)
    requires PlacesRight(p, cells)
    ensures !HomeOf(p, page).Unallocated? <==> IsInstalled(cells, page) || IsSpare(p, page) || IsInHand(p, page)
    ensures !(IsInstalled(cells, page) && IsSpare(p, page))
    ensures !(IsInstalled(cells, page) && IsInHand(p, page))
    ensures !(IsSpare(p, page) && IsInHand(p, page))
    ensures forall k, k' | k in cells && k' in cells && cells[k] == page && cells[k'] == page :: k == k'
    ensures forall t, u | t in p.spare && u in p.spare && p.spare[t] == page && p.spare[u] == page :: t == u
    ensures forall t, u | t in p.hands && u in p.hands && p.hands[t] == page && p.hands[u] == page :: t == u
  {
    assert HomeRight(p, cells, page);
  }

  /** Pages of both levels are conserved in every run; a spare first-level page is still
      all zero, and whoever saves a page finds its cache empty. */
  lemma PagesAreConserved(l: Layout, acts: seq<Action>, s: State, page: Page, t: Thread)
    requires Run(l, acts, s)
    ensures !HomeOf(s.l1Pages, page).Leaked? && !HomeOf(s.shadowPages, page).Leaked?
    ensures !HomeOf(s.l1Pages, page).Unallocated? <==>
      IsInstalled(s.l1, page) || IsSpare(s.l1Pages, page) || IsInHand(s.l1Pages, page)
    ensures !HomeOf(s.shadowPages, page).Unallocated? <==>
      IsInstalled(s.l2, page) || IsSpare(s.shadowPages, page) || IsInHand(s.shadowPages, page)
    ensures IsSpare(s.l1Pages, page) || IsInHand(s.l1Pages, page) ==> forall c | c in s.l2 :: c.base != page
    ensures PcOf(s, t).SaveL1? ==> t !in s.l1Pages.spare
    ensures PcOf(s, t).SaveShadow? ==> t !in s.shadowPages.spare
  {
    RunInv(l, acts, s);
    PlacesExclude(s.l1Pages, s.l1, page);
    PlacesExclude(s.shadowPages, s.l2, page);
    assert HomeRight(s.l1Pages, s.l1, page) && HomeRight(s.shadowPages, s.l2, page);
    assert LookupRight(l, s, t);
  }

  /** A lookup whose entries are both set reads them and takes no page. */
  lemma ResolvedIsRead(l: Layout, s: State, t: Thread, newPage: Page)
    requires Inv(l, s) && !Crashes(l, s, t) && !PcOf(s, t).Idle? && Resolved(l, s, PcOf(s, t).addr) && Reading(PcOf(s, t))
    ensures var s' := DoStep(l, s, t, newPage);
      && (Reading(PcOf(s', t)) || PcOf(s', t).Idle?) && s'.l1Pages == s.l1Pages && s'.shadowPages == s.shadowPages
      && s'.l1 == s.l1 && s'.l2 == s.l2
  {
    assert LookupRight(l, s, t);
  }

  predicate Reading(pc: Pc) {
    pc.LoadL1? || pc.LoadBase? || pc.LoadEntry? || pc.ReadBase? || pc.ReadEntry?
  }

  // Every lookup ends.

  /** How many steps of its own a lookup has left at most. */
  function Left(pc: Pc): nat {
    match pc
    case Idle => 0
    case LoadL1(_) => 12
    case TakeL1(_) => 11
    case CasL1(_) => 10
    case SaveL1(_) => 9
    case LoadBase(_) => 8
    case LoadEntry(_, _) => 7
    case TakeShadow(_) => 6
    case CasBase(_) => 5
    case CasEntry(_, _) => 4
    case SaveShadow(_) => 3
    case ReadBase(_) => 2
    case ReadEntry(_, _) => 1
  }

  ghost predicate Continues(l: Layout, s: State, acts: seq<Action>, s': State)
    decreases |acts|
  {
    if acts == [] then s' == s
    else exists s1 :: Next(l, s, acts[0], s1) && Continues(l, s1, acts[1..], s')
  }

  function OwnSteps(acts: seq<Action>, t: Thread): nat {
    if acts == [] then 0 else (if acts[0].Step? && acts[0].t == t then 1 else 0) + OwnSteps(acts[1..], t)
  }

  ghost predicate Answered(s: State, addr: nat) {
    exists page :: (addr, page) in s.answers
  }

  lemma EarlyStepEnds(l: Layout, s: State, t: Thread, newPage: Page)
    requires !Crashes(l, s, t) && !PcOf(s, t).Idle? && Early(PcOf(s, t))
    ensures var pc, s' := PcOf(s, t), DoStep(l, s, t, newPage);
      !PcOf(s', t).Idle? && PcOf(s', t).addr == pc.addr && Left(PcOf(s', t)) < Left(pc) && s'.answers == s.answers
  {
  }

  lemma ShadowStepEnds(l: Layout, s: State, t: Thread, newPage: Page)
    requires !Crashes(l, s, t)
    requires var pc := PcOf(s, t); pc.TakeShadow? || HoldsShadow(pc)
    ensures var pc, s' := PcOf(s, t), DoStep(l, s, t, newPage);
      !PcOf(s', t).Idle? && PcOf(s', t).addr == pc.addr && Left(PcOf(s', t)) < Left(pc) && s'.answers == s.answers
  {
  }

  lemma ReadStepEnds(l: Layout, s: State, t: Thread, newPage: Page)
    requires !Crashes(l, s, t) && (PcOf(s, t).ReadBase? || PcOf(s, t).ReadEntry?)
    ensures var pc, s' := PcOf(s, t), DoStep(l, s, t, newPage);
      && s.answers <= s'.answers
      && if pc.ReadEntry? then (pc.addr, s.l2[At(l, pc.base, pc.addr)]) in s'.answers
         else !PcOf(s', t).Idle? && PcOf(s', t).addr == pc.addr && Left(PcOf(s', t)) < Left(pc)
  {
  }

  lemma LateStepEnds(l: Layout, s: State, t: Thread, newPage: Page)
    requires !Crashes(l, s, t) && !Early(PcOf(s, t))
    ensures var pc, s' := PcOf(s, t), DoStep(l, s, t, newPage);
      && s.answers <= s'.answers
      && if pc.ReadEntry? then (pc.addr, s.l2[At(l, pc.base, pc.addr)]) in s'.answers
         else !PcOf(s', t).Idle? && PcOf(s', t).addr == pc.addr && Left(PcOf(s', t)) < Left(pc)
  {
    if PcOf(s, t).ReadBase? || PcOf(s, t).ReadEntry? {
      ReadStepEnds(l, s, t, newPage);
    } else {
      ShadowStepEnds(l, s, t, newPage);
    }
  }

  lemma AnswersStay(l: Layout, s: State, a: Action, s': State)
    requires Next(l, s, a, s')
    ensures s.answers <= s'.answers
  {
    if a.Step? {
      if Early(PcOf(s, a.t)) { EarlyStepEnds(l, s, a.t, a.newPage); } else { LateStepEnds(l, s, a.t, a.newPage); }
    }
  }

  lemma {:induction false} AnswersRemain(l: Layout, s: State, acts: seq<Action>, s': State)
    requires Continues(l, s, acts, s')
    ensures s.answers <= s'.answers
    decreases |acts|
  {
    if acts != [] {
      var s1 :| Next(l, s, acts[0], s1) && Continues(l, s1, acts[1..], s');
      AnswersStay(l, s, acts[0], s1);
      AnswersRemain(l, s1, acts[1..], s');
    }
  }

  /** A lookup has its answer after at most twelve steps of its own, whatever other threads do. */
  lemma {:induction false} LookupEnds(l: Layout, s: State, acts: seq<Action>, s': State, t: Thread)
    requires Continues(l, s, acts, s') && !PcOf(s, t).Idle? && OwnSteps(acts, t) >= Left(PcOf(s, t))
    ensures Answered(s', PcOf(s, t).addr)
    decreases |acts|
  {
    var a := acts[0];
    var s1 :| Next(l, s, a, s1) && Continues(l, s1, acts[1..], s');
    if a.t != t {
      if a.Step? { OthersStay(l, s, a.t, a.newPage, t); }
      LookupEnds(l, s1, acts[1..], s', t);
    } else if Early(PcOf(s, t)) {
      EarlyStepEnds(l, s, t, a.newPage);
      LookupEnds(l, s1, acts[1..], s', t);
    } else {
      LateStepEnds(l, s, t, a.newPage);
      if PcOf(s, t).ReadEntry? {
        AnswersRemain(l, s1, acts[1..], s');
      } else {
        LookupEnds(l, s1, acts[1..], s', t);
      }
    }
  }

  /** So does every call: from the moment it is begun. */
  lemma CallEnds(l: Layout, s: State, t: Thread, addr: nat, acts: seq<Action>, s': State)
    requires PcOf(s, t).Idle? && Continues(l, Apply(l, s, Begin(t, addr)), acts, s') && OwnSteps(acts, t) >= 12
    ensures Answered(s', addr)
  {
    LookupEnds(l, Apply(l, s, Begin(t, addr)), acts, s', t);
  }

  lemma {:induction false} Unused(used: set<Page>) returns (page: Page)
    ensures forall p | p in used :: p < page
    decreases |used|
  {
    if used == {} {
      page := 0;
    } else {
      var p :| p in used;
      page := Unused(used - {p});
      assert forall q | q in used :: q == p || q in used - {p};
      if page <= p { page := p + 1; }
    }
  }

  /** Some step of a lookup is always possible. */
  lemma CanStep(s: State, t: Thread) returns (newPage: Page)
    requires !PcOf(s, t).Idle?
    ensures Enabled(s, Step(t, newPage))
  {
    newPage := Unused(s.l1Pages.home.Keys + s.shadowPages.home.Keys);
  }

  lemma Prepend(l: Layout, s: State, a: Action, s1: State, acts: seq<Action>, s': State)
    requires Next(l, s, a, s1) && Continues(l, s1, acts, s')
    ensures Continues(l, s, [a] + acts, s')
  {
    assert ([a] + acts)[1..] == acts;
  }

  lemma {:induction false} Finish(l: Layout, s: State, t: Thread) returns (acts: seq<Action>, s': State)
    requires Inv(l, s) && !PcOf(s, t).Idle?
    ensures Continues(l, s, acts, s') && Answered(s', PcOf(s, t).addr)
    decreases Left(PcOf(s, t))
  {
    var newPage := CanStep(s, t);
    var a := Step(t, newPage);
    ApplyInv(l, s, a);
    var s1, pc := Apply(l, s, a), PcOf(s, t);
    if Early(pc) { EarlyStepEnds(l, s, t, newPage); } else { LateStepEnds(l, s, t, newPage); }
    if pc.ReadEntry? {
      acts, s' := [], s1;
    } else {
      acts, s' := Finish(l, s1, t);
    }
    Prepend(l, s, a, s1, acts, s');
    acts := [a] + acts;
  }

  /** From every reachable state a thread that is in no lookup can get an answer for any address. */
  lemma LookupPossible(l: Layout, before: seq<Action>, s: State, t: Thread, addr: nat)
    requires Run(l, before, s) && PcOf(s, t).Idle?
    ensures exists acts, s' :: Continues(l, s, acts, s') && Answered(s', addr)
  {
    RunInv(l, before, s);
    var a := Begin(t, addr);
    ApplyInv(l, s, a);
    var acts, s' := Finish(l, Apply(l, s, a), t);
    Prepend(l, s, a, Apply(l, s, a), acts, s');
  }
}
