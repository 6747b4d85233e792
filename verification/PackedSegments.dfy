/** Label segments as the program stores them (Segment.cpp): fields packed into words
    with shifts and masks. A word is a sequence of bits, lowest first. */
module PackedSegments {
  import opened AddressSplit
  import opened Arithmetic
  import opened Segments

  type Bits = seq<bool>

  function Val(b: Bits): nat {
    if b == [] then 0 else (if b[0] then 1 else 0) + 2 * Val(b[1..])
  }

  /** The lowest `n` bits of a number. */
  function ToBits(x: nat, n: nat): (b: Bits)
    ensures |b| == n
  {
    if n == 0 then [] else [x % 2 == 1] + ToBits(x / 2, n - 1)
  }

  lemma {:induction false} ValToBits(x: nat, n: nat)
    ensures Val(ToBits(x, n)) == Low(x, n)
  {
    if n > 0 {
      ValToBits(x / 2, n - 1);
      assert ToBits(x, n)[1..] == ToBits(x / 2, n - 1);
    }
  }

  lemma {:induction false} ValInjective(a: Bits, b: Bits)
    requires |a| == |b| && Val(a) == Val(b)
    ensures a == b
  {
    if a != [] {
      ValInjective(a[1..], b[1..]);
      assert a == [a[0]] + a[1..] && b == [b[0]] + b[1..];
    }
  }

  lemma {:induction false} ValPadded(b: Bits, n: nat)
    ensures Val(b + seq(n, i => false)) == Val(b)
  {
    if b == [] {
      assert b + seq(n, i => false) == seq(n, i => false);
      ValZeros(n);
    } else {
      assert (b + seq(n, i => false))[1..] == b[1..] + seq(n, i => false);
      ValPadded(b[1..], n);
    }
  }

  lemma {:induction false} ValZeros(n: nat)
    ensures Val(seq(n, i => false)) == 0
  {
    if n > 0 {
      assert seq(n, i => false)[1..] == seq(n - 1, i => false);
      ValZeros(n - 1);
    }
  }

  // The word operations of the source.

  function BitAnd(a: Bits, b: Bits): Bits
    requires |a| == |b|
  {
    seq(|a|, i requires 0 <= i < |a| => a[i] && b[i])
  }

  function BitOr(a: Bits, b: Bits): Bits
    requires |a| == |b|
  {
    seq(|a|, i requires 0 <= i < |a| => a[i] || b[i])
  }

  function BitNot(a: Bits): Bits {
    seq(|a|, i requires 0 <= i < |a| => !a[i])
  }

  function ShiftLeft(a: Bits, k: nat): Bits {
    seq(|a|, i requires 0 <= i < |a| => i >= k && a[i - k])
  }

  function ShiftRight(a: Bits, k: nat): Bits {
    seq(|a|, i requires 0 <= i < |a| => i + k < |a| && a[i + k])
  }

  /** A mask with the bits `lo` to `hi - 1` set. */
  function Mask(width: nat, lo: nat, hi: nat): Bits {
    seq(width, i => lo <= i < hi)
  }

  /** Clear a field and or the shifted value into it: the idiom of every setter. */
  function Put(w: Bits, lo: nat, hi: nat, x: nat): Bits {
    BitOr(BitAnd(w, BitNot(Mask(|w|, lo, hi))), BitAnd(ShiftLeft(ToBits(x, |w|), lo), Mask(|w|, lo, hi)))
  }

  /** Mask a field and shift it down: the idiom of every getter. */
  function Get(w: Bits, lo: nat, hi: nat): nat {
    Val(ShiftRight(BitAnd(w, Mask(|w|, lo, hi)), lo))
  }

  lemma {:induction false} ToBitsPrefix(x: nat, n: nat, k: nat)
    requires k <= n
    ensures ToBits(x, n)[..k] == ToBits(x, k)
  {
    if k > 0 {
      ToBitsPrefix(x / 2, n - 1, k - 1);
      assert ToBits(x, n)[..k] == [x % 2 == 1] + ToBits(x / 2, n - 1)[..k - 1];
    }
  }

  /** A setter replaces the bits of its field and no others. */
  lemma PutIsReplace(w: Bits, lo: nat, hi: nat, x: nat)
    requires lo <= hi <= |w|
    ensures Put(w, lo, hi, x) == w[..lo] + ToBits(x, hi - lo) + w[hi..]
  {
    var bits := ToBits(x, |w|);
    ToBitsPrefix(x, |w|, hi - lo);
    var r := w[..lo] + ToBits(x, hi - lo) + w[hi..];
    forall i | 0 <= i < |w| ensures Put(w, lo, hi, x)[i] == r[i] {
      if lo <= i < hi { assert r[i] == ToBits(x, hi - lo)[i - lo] == bits[..hi - lo][i - lo]; }
    }
  }

  /** A getter reads the bits of its field. */
  lemma GetIsField(w: Bits, lo: nat, hi: nat)
    requires lo <= hi <= |w|
    ensures Get(w, lo, hi) == Val(w[lo..hi])
  {
    var pad := |w| - (hi - lo);
    assert ShiftRight(BitAnd(w, Mask(|w|, lo, hi)), lo) == w[lo..hi] + seq(pad, i => false);
    ValPadded(w[lo..hi], pad);
  }

  /** What was put is what is got, cut to the field's width; other fields are untouched. */
  lemma GetPut(w: Bits, lo: nat, hi: nat, x: nat, l: nat, h: nat)
    requires lo <= hi <= |w| && l <= h <= |w|
    ensures |Put(w, lo, hi, x)| == |w|
    ensures l == lo && h == hi ==> Get(Put(w, lo, hi, x), l, h) == Low(x, hi - lo)
    ensures h <= lo || hi <= l ==> Get(Put(w, lo, hi, x), l, h) == Get(w, l, h)
  {
    var w' := Put(w, lo, hi, x);
    PutIsReplace(w, lo, hi, x);
    GetIsField(w', l, h);
    GetIsField(w, l, h);
    ReplacedSlice(w, ToBits(x, hi - lo), lo, hi, l, h);
    if l == lo && h == hi { ValToBits(x, hi - lo); }
  }

  lemma ReplacedSlice(w: Bits, field: Bits, lo: nat, hi: nat, l: nat, h: nat)
    requires lo <= hi <= |w| && |field| == hi - lo && l <= h <= |w|
    ensures var w' := w[..lo] + field + w[hi..];
      |w'| == |w| && w'[lo..hi] == field && (h <= lo || hi <= l ==> w'[l..h] == w[l..h])
  {
    var w' := w[..lo] + field + w[hi..];
    forall i | l <= i < h && (h <= lo || hi <= l) ensures w'[i] == w[i] {}
    if h <= lo || hi <= l {
      forall i | 0 <= i < h - l ensures w'[l..h][i] == w[l..h][i] { assert w'[l + i] == w[l + i]; }
    }
  }

  // The fields of a segment.

  const WORD: nat := 64
  const HALF: nat := 32

  function KindOf(bits: nat): SegmentType {
    if bits == 1 then Implicit else if bits == 2 then Explicit else WorkShare
  }

  function TypeBits(kind: SegmentType): nat {
    match kind
    case Implicit => 1
    case Explicit => 2
    case WorkShare => 3
  }

  /** The fields read off the four words of a segment. */
  function Unpack(value: Bits, taskGroup: Bits, orderSecVal: Bits, workShareId: Bits): Segment {
    Segment(
      KindOf(Get(value, 0, 2)), Get(value, 48, 64), Get(value, 32, 48), Get(value, 28, 32), Get(value, 24, 28),
      Get(value, 20, 24), Get(value, 5, 20), Get(value, 4, 5) == 1, Get(value, 3, 4) == 1, Get(value, 2, 3) == 1,
      Get(taskGroup, 16, 32), Get(taskGroup, 0, 16), Val(orderSecVal), Val(workShareId))
  }

  lemma SameBits(a: Bits, b: Bits, lo: nat, hi: nat)
    requires |a| == |b| == WORD && lo <= hi <= WORD && Get(a, lo, hi) == Get(b, lo, hi)
    ensures forall i | lo <= i < hi :: a[i] == b[i]
  {
    GetIsField(a, lo, hi);
    GetIsField(b, lo, hi);
    ValInjective(a[lo..hi], b[lo..hi]);
    forall i | lo <= i < hi ensures a[i] == b[i] {
      assert a[i] == a[lo..hi][i - lo] && b[i] == b[lo..hi][i - lo];
    }
  }

  lemma OneBit(a: Bits, lo: nat)
    requires |a| == WORD && lo < WORD
    ensures Get(a, lo, lo + 1) == if a[lo] then 1 else 0
  {
    GetIsField(a, lo, lo + 1);
    assert a[lo..lo + 1] == [a[lo]];
    assert [a[lo]][1..] == [];
  }

  lemma TwoBits(a: Bits)
    requires |a| == WORD
    ensures Get(a, 0, 2) < 4
  {
    GetIsField(a, 0, 2);
    assert a[0..2] == a[..2];
    ValPrefix(a, 2);
    LowBound(Val(a), 2);
  }

  /** Comparing the packed words compares exactly the fields kept in them: nothing is lost in packing. */
  lemma WordEqualityIsFieldEquality(a: Bits, b: Bits, tg: Bits, osv: Bits, ws: Bits)
    requires |a| == |b| == WORD && Get(a, 0, 2) != 0 && Get(b, 0, 2) != 0
    ensures a == b <==> Value(Unpack(a, tg, osv, ws)) == Value(Unpack(b, tg, osv, ws))
  {
    var x, y := Value(Unpack(a, tg, osv, ws)), Value(Unpack(b, tg, osv, ws));
    if x == y {
      TwoBits(a);
      TwoBits(b);
      assert x.kind == y.kind && x.offset == y.offset && x.span == y.span && x.taskwait == y.taskwait;
      assert x.phase == y.phase && x.loopCount == y.loopCount && x.taskcreate == y.taskcreate;
      assert x.groupSync == y.groupSync && x.taskwaited == y.taskwaited && x.flag2 == y.flag2;
      OneBit(a, 2); OneBit(b, 2); OneBit(a, 3); OneBit(b, 3); OneBit(a, 4); OneBit(b, 4);
      WordFromFields(a, b);
    }
  }

  lemma WordFromFields(a: Bits, b: Bits)
    requires |a| == |b| == WORD
    requires Get(a, 0, 2) == Get(b, 0, 2) && a[2] == b[2] && a[3] == b[3] && a[4] == b[4] && Get(a, 5, 20) == Get(b, 5, 20)
    requires Get(a, 20, 24) == Get(b, 20, 24) && Get(a, 24, 28) == Get(b, 24, 28) && Get(a, 28, 32) == Get(b, 28, 32)
    requires Get(a, 32, 48) == Get(b, 32, 48) && Get(a, 48, 64) == Get(b, 48, 64)
    ensures a == b
  {
    SameBits(a, b, 0, 2);
    SameBits(a, b, 5, 20);
    SameBits(a, b, 20, 24);
    SameBits(a, b, 24, 28);
    SameBits(a, b, 28, 32);
    SameBits(a, b, 32, 48);
    SameBits(a, b, 48, 64);
    forall i | 0 <= i < WORD ensures a[i] == b[i] {}
  }

  lemma LowIsRemainder(x: nat, n: nat, m: nat)
    requires m == Pow2(n)
    ensures Low(x, n) == x % m
  {
    SplitsAt(x, n);
    LowBound(x, n);
    RemainderIsUnique(x, m, Shr(x, n), Low(x, n));
  }

  lemma Low16(x: nat)
    ensures Low(x, 16) == x % FIELD16
  {
    Pow2Of16();
    LowIsRemainder(x, 16, FIELD16);
  }

  lemma Pow2Of16()
    ensures Pow2(16) == FIELD16
  {
    assert Pow2(4) == 16;
    assert Pow2(8) == 256 by { assert Pow2(6) == 64; }
    assert Pow2(12) == 4096 by { assert Pow2(10) == 1024; }
    assert Pow2(14) == 16384;
  }

  lemma {:induction false} LowOfSmall(x: nat, n: nat)
    requires x < Pow2(n)
    ensures Low(x, n) == x
  {
    if n > 0 { LowOfSmall(x / 2, n - 1); }
  }

  /** A setter on the packed word changes the view in its field only. */
  lemma PutView(w: Bits, lo: nat, hi: nat, x: nat)
    requires |w| == WORD && lo <= hi <= WORD
    requires lo == 0 || lo == 2 || lo == 3 || lo == 4 || lo == 5 || lo == 20 || lo == 24 || lo == 28 || lo == 32 || lo == 48
    requires hi == (if lo == 0 then 2 else if lo < 5 then lo + 1 else if lo == 5 then 20 else if lo < 32 then lo + 4 else lo + 16)
    ensures |Put(w, lo, hi, x)| == WORD && Get(Put(w, lo, hi, x), lo, hi) == Low(x, hi - lo)
    ensures var w' := Put(w, lo, hi, x);
      && (lo != 0 ==> Get(w', 0, 2) == Get(w, 0, 2)) && (lo != 2 ==> Get(w', 2, 3) == Get(w, 2, 3))
      && (lo != 3 ==> Get(w', 3, 4) == Get(w, 3, 4)) && (lo != 4 ==> Get(w', 4, 5) == Get(w, 4, 5))
      && (lo != 5 ==> Get(w', 5, 20) == Get(w, 5, 20)) && (lo != 20 ==> Get(w', 20, 24) == Get(w, 20, 24))
      && (lo != 24 ==> Get(w', 24, 28) == Get(w, 24, 28)) && (lo != 28 ==> Get(w', 28, 32) == Get(w, 28, 32))
      && (lo != 32 ==> Get(w', 32, 48) == Get(w, 32, 48)) && (lo != 48 ==> Get(w', 48, 64) == Get(w, 48, 64))
  {
    GetPut(w, lo, hi, x, lo, hi);
    GetPut(w, lo, hi, x, 0, 2);
    GetPut(w, lo, hi, x, 2, 3);
    GetPut(w, lo, hi, x, 3, 4);
    GetPut(w, lo, hi, x, 4, 5);
    GetPut(w, lo, hi, x, 5, 20);
    GetPut(w, lo, hi, x, 20, 24);
    GetPut(w, lo, hi, x, 24, 28);
    GetPut(w, lo, hi, x, 28, 32);
    GetPut(w, lo, hi, x, 32, 48);
    GetPut(w, lo, hi, x, 48, 64);
  }

  lemma {:induction false} ValBitOr(a: Bits, b: Bits)
    requires |a| == |b|
    ensures Val(BitOr(a, b)) == Or(Val(a), Val(b))
  {
    if a != [] {
      assert BitOr(a, b)[1..] == BitOr(a[1..], b[1..]);
      ValBitOr(a[1..], b[1..]);
      OrUnfolds(Val(a), Val(b));
    }
  }

  lemma OrUnfolds(x: nat, y: nat)
    ensures Or(x, y) == (if x % 2 == 1 || y % 2 == 1 then 1 else 0) + 2 * Or(x / 2, y / 2)
  {
    if x == 0 { assert Or(0, y / 2) == y / 2; }
  }

  /** The phase word keeps the half it should clear. */
  lemma PhaseWord(osv: Bits, phase: nat)
    requires |osv| == HALF
    ensures Val(BitOr(BitAnd(osv, Mask(HALF, 0, 16)), BitAnd(ToBits(phase, HALF), Mask(HALF, 0, 16)))) ==
      Or(Val(osv) % FIELD16, phase % FIELD16)
  {
    var a, b := BitAnd(osv, Mask(HALF, 0, 16)), BitAnd(ToBits(phase, HALF), Mask(HALF, 0, 16));
    ValBitOr(a, b);
    LowHalf(osv);
    LowHalf(ToBits(phase, HALF));
    ValToBits(phase, HALF);
    ShrLowLow(phase, HALF, 16);
    Low16(phase);
    Low16(Val(osv));
    Low16(Low(phase, HALF));
  }

  lemma {:induction false} ShrLowLow(x: nat, n: nat, k: nat)
    requires k <= n
    ensures Low(Low(x, n), k) == Low(x, k)
  {
    if k > 0 {
      assert Low(x, n) / 2 == Low(x / 2, n - 1);
      ShrLowLow(x / 2, n - 1, k - 1);
    }
  }

  lemma LowHalf(w: Bits)
    requires |w| == HALF
    ensures Val(BitAnd(w, Mask(HALF, 0, 16))) == Low(Val(w), 16)
  {
    assert BitAnd(w, Mask(HALF, 0, 16)) == w[..16] + seq(16, i => false);
    ValPadded(w[..16], 16);
    ValPrefix(w, 16);
  }

  lemma {:induction false} ValPrefix(w: Bits, k: nat)
    requires k <= |w|
    ensures Val(w[..k]) == Low(Val(w), k)
  {
    if k > 0 {
      assert w[..k][1..] == w[1..][..k - 1];
      ValPrefix(w[1..], k - 1);
    }
  }

  /** A segment object. Its setters write the packed words in place. */
  class SegmentObject {
    var value: Bits
    var taskGroup: Bits
    var orderSecVal: Bits
    var workShareId: Bits

    ghost predicate Valid()
      reads this
    {
      |value| == WORD && |taskGroup| == HALF && |orderSecVal| == HALF && |workShareId| == WORD
    }

    ghost function View(): Segment
      reads this
    {
      Unpack(value, taskGroup, orderSecVal, workShareId)
    }

    /** The source checks that the span fits its field. */
    constructor (kind: SegmentType, offset: nat, span: nat)
      requires span < FIELD16
      ensures Valid() && View() == NewSegment(kind, offset % FIELD16, span)
    {
      var v := Put(Put(Put(Zeros(WORD), 0, 2, TypeBits(kind)), 48, 64, offset), 32, 48, span);
      NewWord(kind, offset, span);
      value := v;
      taskGroup, orderSecVal, workShareId := Zeros(HALF), Zeros(HALF), Zeros(WORD);
      ZeroFields(Zeros(HALF), 0, 16);
      ZeroFields(Zeros(HALF), 16, 32);
      ValZeros(HALF);
      ValZeros(WORD);
    }

    constructor Copy(s: SegmentObject)
      requires s.Valid()
      ensures Valid() && View() == s.View()
    {
      value, taskGroup, orderSecVal, workShareId := s.value, s.taskGroup, s.orderSecVal, s.workShareId;
    }

    method SetOffsetSpan(offset: nat, span: nat)
      requires Valid()
      modifies this`value
      ensures Valid() && View() == old(View()).(offset := offset % FIELD16, span := span % FIELD16)
    {
      PutView(value, 48, 64, offset);
      Low16(offset);
      value := Put(value, 48, 64, offset);
      PutView(value, 32, 48, span);
      Low16(span);
      value := Put(value, 32, 48, span);
    }

    method SetTaskwait(taskwait: nat)
      requires Valid() && taskwait < 16
      modifies this`value
      ensures Valid() && View() == old(View()).(taskwait := taskwait)
    {
      PutView(value, 28, 32, taskwait);
      LowOfSmall(taskwait, 4);
      value := Put(value, 28, 32, taskwait);
    }

    method SetTaskcreate(taskcreate: nat)
      requires Valid() && taskcreate < 0x8000
      modifies this`value
      ensures Valid() && View() == old(View()).(taskcreate := taskcreate)
    {
      PutView(value, 5, 20, taskcreate);
      Pow2Of15();
      LowOfSmall(taskcreate, 15);
      value := Put(value, 5, 20, taskcreate);
    }

    method SetPhase(phase: nat)
      requires Valid() && phase < 16
      modifies this`value
      ensures Valid() && View() == old(View()).(phase := phase)
    {
      PutView(value, 24, 28, phase);
      LowOfSmall(phase, 4);
      value := Put(value, 24, 28, phase);
    }

    method SetLoopCount(loopCount: nat)
      requires Valid() && loopCount < 16
      modifies this`value
      ensures Valid() && View() == old(View()).(loopCount := loopCount)
    {
      PutView(value, 20, 24, loopCount);
      LowOfSmall(loopCount, 4);
      value := Put(value, 20, 24, loopCount);
    }

    method SetFlag2(flag: bool)
      requires Valid()
      modifies this`value
      ensures Valid() && View() == old(View()).(flag2 := flag)
    {
      PutView(value, 2, 3, if flag then 1 else 0);
      value := Put(value, 2, 3, if flag then 1 else 0);
    }

    method SetTaskwaited()
      requires Valid()
      modifies this`value
      ensures Valid() && View() == Segments.SetTaskwaited(old(View()))
    {
      PutView(value, 3, 4, 1);
      value := Put(value, 3, 4, 1);
    }

    method SetTaskGroupSync()
      requires Valid()
      modifies this`value
      ensures Valid() && View() == Segments.SetTaskGroupSync(old(View()))
    {
      PutView(value, 4, 5, 1);
      value := Put(value, 4, 5, 1);
    }

    method SetTaskGroup(groupId: nat, groupLevel: nat)
      requires Valid()
      modifies this`taskGroup
      ensures Valid() && View() == old(View()).(groupId := groupId % FIELD16, groupLevel := groupLevel % FIELD16)
    {
      GetPut(taskGroup, 16, 32, groupId, 16, 32);
      Low16(groupId);
      taskGroup := Put(taskGroup, 16, 32, groupId);
      GetPut(taskGroup, 0, 16, groupLevel, 16, 32);
      GetPut(taskGroup, 0, 16, groupLevel, 0, 16);
      Low16(groupLevel);
      taskGroup := Put(taskGroup, 0, 16, groupLevel);
    }

    /** The source masks with the field's own mask, which keeps what it should clear. */
    method SetTaskwaitPhase(phase: nat)
      requires Valid()
      modifies this`orderSecVal
      ensures Valid() && View() == Segments.SetTaskwaitPhase(old(View()), phase)
    {
      PhaseWord(orderSecVal, phase);
      orderSecVal := BitAnd(orderSecVal, Mask(HALF, 0, 16));
      orderSecVal := BitOr(orderSecVal, BitAnd(ToBits(phase, HALF), Mask(HALF, 0, 16)));
    }

    /** The words that hold one value each. */
    method SetIds(orderSecVal: nat, workShareId: nat)
      requires Valid() && orderSecVal < 0x1_0000_0000 && workShareId < 0x1_0000_0000_0000_0000
      modifies this`orderSecVal, this`workShareId
      ensures Valid() && View() == old(View()).(orderSecVal := orderSecVal, workShareId := workShareId)
    {
      Pow2Of64();
      ValToBits(orderSecVal, HALF);
      LowOfSmall(orderSecVal, HALF);
      ValToBits(workShareId, WORD);
      LowOfSmall(workShareId, WORD);
      this.orderSecVal, this.workShareId := ToBits(orderSecVal, HALF), ToBits(workShareId, WORD);
    }

    /** `operator==` on the packed words. */
    method Equals(other: SegmentObject) returns (same: bool)
      requires Valid() && other.Valid() && Get(value, 0, 2) != 0 && Get(other.value, 0, 2) != 0
      ensures same == SameSegment(View(), other.View())
      ensures same <==> value == other.value && (View().kind == WorkShare ==> workShareId == other.workShareId)
    {
      WordEqualityIsFieldEquality(value, other.value, taskGroup, orderSecVal, workShareId);
      ValueIgnoresRest(other.value, taskGroup, orderSecVal, workShareId, other.taskGroup, other.orderSecVal, other.workShareId);
      if value != other.value { return false; }
      if Get(value, 0, 2) == 3 {
        if Val(workShareId) == Val(other.workShareId) { ValInjective(workShareId, other.workShareId); }
        return workShareId == other.workShareId;
      }
      TwoBits(value);
      return true;
    }
  }

  method StoreCounters(s: Segment) returns (o: SegmentObject)
    requires Fits(s)
    ensures fresh(o) && o.Valid()
    ensures o.View() == NewSegment(s.kind, s.offset, s.span).(
      taskwait := s.taskwait, taskcreate := s.taskcreate, phase := s.phase, loopCount := s.loopCount)
  {
    o := new SegmentObject(s.kind, s.offset, s.span);
    o.SetTaskwait(s.taskwait);
    o.SetTaskcreate(s.taskcreate);
    o.SetPhase(s.phase);
    o.SetLoopCount(s.loopCount);
  }

  method StoreMarks(o: SegmentObject, s: Segment)
    requires o.Valid() && !o.View().taskwaited && !o.View().groupSync
    modifies o`value
    ensures o.Valid()
    ensures o.View() == old(o.View()).(flag2 := s.flag2, taskwaited := s.taskwaited, groupSync := s.groupSync)
  {
    o.SetFlag2(s.flag2);
    if s.taskwaited { o.SetTaskwaited(); }
    if s.groupSync { o.SetTaskGroupSync(); }
  }

  method StoreRest(o: SegmentObject, s: Segment)
    requires o.Valid() && Fits(s)
    modifies o`taskGroup, o`orderSecVal, o`workShareId
    ensures o.Valid()
    ensures o.View() == old(o.View()).(groupId := s.groupId, groupLevel := s.groupLevel,
      orderSecVal := s.orderSecVal, workShareId := s.workShareId)
  {
    o.SetTaskGroup(s.groupId, s.groupLevel);
    o.SetIds(s.orderSecVal, s.workShareId);
  }

  /** A segment whose fields fit can be stored: the setters lose nothing. */
  method Store(s: Segment) returns (o: SegmentObject)
    requires Fits(s)
    ensures fresh(o) && o.Valid() && o.View() == s
  {
    assert s.groupId % FIELD16 == s.groupId && s.groupLevel % FIELD16 == s.groupLevel;
    o := StoreCounters(s);
    StoreMarks(o, s);
    StoreRest(o, s);
  }

  lemma {:induction false} ValSplits(b: Bits, k: nat)
    requires k <= |b|
    ensures Val(b) == Val(b[..k]) + Pow2(k) * Val(b[k..])
  {
    if k > 0 {
      ValSplits(b[1..], k - 1);
      assert b[..k][1..] == b[1..][..k - 1] && b[k..] == b[1..][k - 1..];
      DoubledProduct(Pow2(k - 1), Val(b[k..]));
    } else {
      assert b[0..] == b;
    }
  }

  lemma FieldAbove(w: Bits, lo: nat, hi: nat, unit: nat)
    requires lo <= hi <= |w| && unit == Pow2(hi - lo)
    ensures Val(w[lo..]) == Get(w, lo, hi) + unit * Val(w[hi..])
  {
    GetIsField(w, lo, hi);
    ValSplits(w[lo..], hi - lo);
    assert w[lo..][..hi - lo] == w[lo..hi] && w[lo..][hi - lo..] == w[hi..];
  }

  lemma LowHalfWord(w: Bits)
    requires |w| == WORD
    ensures Val(w) == Get(w, 0, 2) + 4 * (Get(w, 2, 3) + 2 * (Get(w, 3, 4) + 2 * (Get(w, 4, 5) + 2 * (Get(w, 5, 20) + 0x8000 * Val(w[20..])))))
  {
    assert w[0..] == w;
    FieldAbove(w, 0, 2, 4);
    FieldAbove(w, 2, 3, 2);
    FieldAbove(w, 3, 4, 2);
    FieldAbove(w, 4, 5, 2);
    Pow2Of15();
    FieldAbove(w, 5, 20, 0x8000);
  }

  lemma HighHalfWord(w: Bits)
    requires |w| == WORD
    ensures Val(w[20..]) == Get(w, 20, 24) + 16 * (Get(w, 24, 28) + 16 * (Get(w, 28, 32) + 16 * (Get(w, 32, 48) + 0x1_0000 * Get(w, 48, 64))))
  {
    Pow2Of16();
    assert Pow2(4) == 16;
    FieldAbove(w, 20, 24, 16);
    FieldAbove(w, 24, 28, 16);
    FieldAbove(w, 28, 32, 16);
    FieldAbove(w, 32, 48, 0x1_0000);
    FieldAbove(w, 48, 64, 0x1_0000);
    assert w[64..] == [];
  }

  /** The packed word as a number, from its fields, lowest first. */
  function Word(kind: nat, flag2: nat, taskwaited: nat, groupSync: nat, taskcreate: nat,
    loopCount: nat, phase: nat, taskwait: nat, span: nat, offset: nat): nat
  {
    kind + 4 * (flag2 + 2 * (taskwaited + 2 * (groupSync + 2 * (taskcreate + 0x8000 *
      (loopCount + 16 * (phase + 16 * (taskwait + 16 * (span + 0x1_0000 * offset))))))))
  }

  lemma WordOfFields(w: Bits)
    requires |w| == WORD
    ensures Val(w) == Word(Get(w, 0, 2), Get(w, 2, 3), Get(w, 3, 4), Get(w, 4, 5), Get(w, 5, 20),
      Get(w, 20, 24), Get(w, 24, 28), Get(w, 28, 32), Get(w, 32, 48), Get(w, 48, 64))
  {
    LowHalfWord(w);
    HighHalfWord(w);
  }

  function OneIf(b: bool): nat {
    if b then 1 else 0
  }

  lemma UnpackedFields(value: Bits, taskGroup: Bits, orderSecVal: Bits, workShareId: Bits)
    requires |value| == WORD && Get(value, 0, 2) != 0
    ensures var s := Unpack(value, taskGroup, orderSecVal, workShareId);
      && Get(value, 0, 2) == TypeBits(s.kind) && Get(value, 2, 3) == OneIf(s.flag2)
      && Get(value, 3, 4) == OneIf(s.taskwaited) && Get(value, 4, 5) == OneIf(s.groupSync)
  {
    TwoBits(value);
    OneBit(value, 2);
    OneBit(value, 3);
    OneBit(value, 4);
  }

  /** Where each field is kept. */
  lemma WordLayout(value: Bits, taskGroup: Bits, orderSecVal: Bits, workShareId: Bits)
    requires |value| == WORD && |taskGroup| == HALF && Get(value, 0, 2) != 0
    ensures var s := Unpack(value, taskGroup, orderSecVal, workShareId);
      && Val(value) == Word(TypeBits(s.kind), OneIf(s.flag2), OneIf(s.taskwaited), OneIf(s.groupSync), s.taskcreate,
        s.loopCount, s.phase, s.taskwait, s.span, s.offset)
      && Val(taskGroup) == s.groupLevel + 0x1_0000 * s.groupId
      && TypeBits(Implicit) == 1 && TypeBits(Explicit) == 2 && TypeBits(WorkShare) == 3
  {
    WordOfFields(value);
    UnpackedFields(value, taskGroup, orderSecVal, workShareId);
    GroupLayout(taskGroup);
  }

  lemma GroupLayout(w: Bits)
    requires |w| == HALF
    ensures Val(w) == Get(w, 0, 16) + 0x1_0000 * Get(w, 16, 32)
  {
    Pow2Of16();
    assert w[0..] == w && w[32..] == [];
    FieldAbove(w, 0, 16, 0x1_0000);
    FieldAbove(w, 16, 32, 0x1_0000);
  }

  lemma ValueIgnoresRest(v: Bits, a: Bits, b: Bits, c: Bits, a': Bits, b': Bits, c': Bits)
    ensures Value(Unpack(v, a, b, c)) == Value(Unpack(v, a', b', c'))
  {
  }

  function Zeros(n: nat): Bits {
    seq(n, i => false)
  }

  lemma ZeroFields(w: Bits, lo: nat, hi: nat)
    requires lo <= hi <= |w| && w == Zeros(|w|)
    ensures Get(w, lo, hi) == 0
  {
    GetIsField(w, lo, hi);
    assert w[lo..hi] == seq(hi - lo, i => false);
    ValZeros(hi - lo);
  }

  lemma Pow2Of64()
    ensures Pow2(32) == 0x1_0000_0000 && Pow2(64) == 0x1_0000_0000_0000_0000
  {
    Pow2Of16();
    Pow2Adds(16, 16);
    Pow2Adds(32, 32);
  }

  lemma Pow2Of15()
    ensures Pow2(15) == 0x8000
  {
    Pow2Of16();
    assert Pow2(16) == 2 * Pow2(15);
  }

  /** A word of the given type whose counters and marks are all zero. */
  predicate Blank(v: Bits, kind: SegmentType) {
    && |v| == WORD && Get(v, 0, 2) == TypeBits(kind)
    && Get(v, 2, 3) == Get(v, 3, 4) == Get(v, 4, 5) == Get(v, 5, 20) == 0
    && Get(v, 20, 24) == Get(v, 24, 28) == Get(v, 28, 32) == 0
  }

  lemma TypedWord(kind: SegmentType)
    ensures Blank(Put(Zeros(WORD), 0, 2, TypeBits(kind)), kind)
  {
    var z := Zeros(WORD);
    ZeroFields(z, 2, 3); ZeroFields(z, 3, 4); ZeroFields(z, 4, 5); ZeroFields(z, 5, 20);
    ZeroFields(z, 20, 24); ZeroFields(z, 24, 28); ZeroFields(z, 28, 32);
    PutView(z, 0, 2, TypeBits(kind));
    LowOfSmall(TypeBits(kind), 2);
  }

  lemma StillBlank(w: Bits, kind: SegmentType, lo: nat, x: nat)
    requires Blank(w, kind) && (lo == 32 || lo == 48)
    ensures Blank(Put(w, lo, lo + 16, x), kind)
  {
    PutView(w, lo, lo + 16, x);
  }

  lemma PutField(w: Bits, lo: nat, hi: nat, x: nat)
    requires lo + 16 == hi <= |w|
    ensures |Put(w, lo, hi, x)| == |w| && Get(Put(w, lo, hi, x), lo, hi) == x % FIELD16
  {
    GetPut(w, lo, hi, x, lo, hi);
    Low16(x);
  }

  lemma OffsetAndSpan(t: Bits, offset: nat, span: nat)
    requires |t| == WORD && span < FIELD16
    ensures var v := Put(Put(t, 48, 64, offset), 32, 48, span);
      Get(v, 48, 64) == offset % FIELD16 && Get(v, 32, 48) == span
  {
    var w := Put(t, 48, 64, offset);
    PutField(t, 48, 64, offset);
    GetPut(w, 32, 48, span, 48, 64);
    PutField(w, 32, 48, span);
  }

  /** The word a constructor builds. */
  lemma NewWord(kind: SegmentType, offset: nat, span: nat)
    requires span < FIELD16
    ensures var v := Put(Put(Put(Zeros(WORD), 0, 2, TypeBits(kind)), 48, 64, offset), 32, 48, span);
      Blank(v, kind) && Get(v, 48, 64) == offset % FIELD16 && Get(v, 32, 48) == span
  {
    var t := Put(Zeros(WORD), 0, 2, TypeBits(kind));
    TypedWord(kind);
    StillBlank(t, kind, 48, offset);
    StillBlank(Put(t, 48, 64, offset), kind, 32, span);
    OffsetAndSpan(t, offset, span);
  }
}
