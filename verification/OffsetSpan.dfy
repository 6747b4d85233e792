/** The offset-span theory behind `HappensBefore`: on labels that hold only
    implicit segments the verdict is a recursion over the two labels, and that
    recursion tells how forks, barriers and joins move it. */
module OffsetSpan {
  import opened Arithmetic
  import opened Segments
  import opened Core
  import opened Labels

  /** An implicit segment with no other field in use. */
  predicate Plain(s: Segment) {
    s.span >= 1 && s == NewSegment(Implicit, s.offset, s.span)
  }

  predicate AllPlain(l: Label) {
    l == [] || (Plain(l[0]) && AllPlain(l[1..]))
  }

  lemma {:induction false} PlainAt(l: Label, i: nat)
    requires AllPlain(l) && i < |l|
    ensures Plain(l[i]) && AllPlain(l[i..])
  {
    if i > 0 {
      PlainAt(l[1..], i - 1);
      assert l[1..][i - 1..] == l[i..];
    } else {
      assert l[0..] == l;
    }
  }

  lemma {:induction false} PlainAppend(l: Label, x: Segment)
    ensures AllPlain(l + [x]) <==> AllPlain(l) && Plain(x)
  {
    if l == [] {
      assert l + [x] == [x];
    } else {
      assert (l + [x])[1..] == l[1..] + [x];
      PlainAppend(l[1..], x);
    }
  }

  /** The remainder of `o` by `n`, by subtraction. */
  function Residue(o: nat, n: nat): (r: nat)
    ensures n >= 1 ==> r < n
  {
    if o < n || n == 0 then o else Residue(o - n, n)
  }

  lemma {:induction false} ResidueIsMod(o: nat, n: nat) returns (q: nat)
    requires n >= 1
    ensures o == n * q + Residue(o, n)
    ensures Residue(o, n) == o % n
  {
    if o < n {
      q := 0;
    } else {
      q := ResidueIsMod(o - n, n);
      assert n * (q + 1) == n * q + n;
      q := q + 1;
    }
    RemainderIsUnique(o, n, q, Residue(o, n));
  }

  predicate SameResidue(a: Segment, b: Segment) {
    a.span == b.span && Residue(a.offset, a.span) == Residue(b.offset, a.span)
  }

  /** The verdict read off the first pair of different segments, recursively. */
  function Judge(h: Label, c: Label): Verdict {
    if h == [] then Ordered
    else if c == [] then Fatal
    else if h[0] == c[0] then Judge(h[1..], c[1..])
    else if h[0].span != c[0].span then Fatal
    else if !SameResidue(h[0], c[0]) then Concurrent
    else FromOrder(h[0].offset < c[0].offset)
  }

  function FromOrder(b: bool): Verdict {
    if b then Ordered else Fatal
  }

  /** `h` and `c` agree on every position before `i`: the recursion skips them. */
  lemma {:induction false} JudgeSkips(h: Label, c: Label, i: nat)
    requires i <= |h| && i <= |c| && h[..i] == c[..i]
    ensures Judge(h, c) == Judge(h[i..], c[i..])
  {
    if i > 0 {
      assert h[0] == h[..i][0] == c[..i][0];
      assert h[1..][..i - 1] == h[..i][1..] == c[..i][1..] == c[1..][..i - 1];
      JudgeSkips(h[1..], c[1..], i - 1);
      assert h[1..][i - 1..] == h[i..] && c[1..][i - 1..] == c[i..];
    } else {
      assert h[0..] == h && c[0..] == c;
    }
  }

  /** On plain labels the index-based verdict of the program is the recursion. */
  lemma JudgeIsHappensBefore(h: Label, c: Label)
    requires AllPlain(h) && AllPlain(c)
    ensures HappensBefore(h, c) == Judge(h, c)
  {
    var d := CompareLabels(h, c);
    forall j: nat | j < |h| && j < |c| && SameSegment(h[j], c[j]) ensures h[j] == c[j] {
      PlainAt(h, j);
      PlainAt(c, j);
    }
    if d < 0 {
      var n := if |h| <= |c| then |h| else |c|;
      assert h[..n] == c[..n];
      JudgeSkips(h, c, n);
    } else {
      assert h[..d] == c[..d];
      JudgeSkips(h, c, d);
      PlainAt(h, d);
      PlainAt(c, d);
      if d + 1 < |h| { PlainAt(h, d + 1); }
      var _ := ResidueIsMod(h[d].offset, h[d].span);
      var _ := ResidueIsMod(c[d].offset, h[d].span);
    }
  }

  lemma PlainSame(a: Label, b: Label)
    requires AllPlain(a) && AllPlain(b) && CompareLabels(a, b) == SAME_LABEL
    ensures a == b
  {
    forall j: nat | j < |a| ensures a[j] == b[j] {
      PlainAt(a, j);
      PlainAt(b, j);
    }
  }

  /** A fork appends a segment: no verdict changes. */
  lemma {:induction false} JudgeExtend(h: Label, c: Label, x: Segment)
    requires Judge(h, c) != Fatal
    ensures Judge(h, c + [x]) == Judge(h, c)
  {
    if h != [] && h[0] == c[0] {
      JudgeExtend(h[1..], c[1..], x);
      assert (c + [x])[1..] == c[1..] + [x];
    }
  }

  lemma {:induction false} JudgeExtendLeft(h: Label, c: Label, x: Segment)
    requires Judge(h, c) == Concurrent
    ensures Judge(h + [x], c) == Concurrent
  {
    if h[0] == c[0] {
      JudgeExtendLeft(h[1..], c[1..], x);
      assert (h + [x])[1..] == h[1..] + [x];
    }
  }

  lemma {:induction false} ConcurrentSymmetric(h: Label, c: Label)
    requires Judge(h, c) == Concurrent
    ensures Judge(c, h) == Concurrent
  {
    if h[0] == c[0] {
      ConcurrentSymmetric(h[1..], c[1..]);
    }
  }

  lemma {:induction false} JudgeSelf(h: Label)
    ensures Judge(h, h) == Ordered
  {
    if h != [] { JudgeSelf(h[1..]); }
  }

  lemma {:induction false} JudgeSiblings(base: Label, x: Segment, y: Segment)
    requires x.span == y.span && !SameResidue(x, y)
    ensures Judge(base + [x], base + [y]) == Concurrent
  {
    if base != [] {
      assert (base + [x])[1..] == base[1..] + [x] && (base + [y])[1..] == base[1..] + [y];
      JudgeSiblings(base[1..], x, y);
    }
  }

  /** The last segments of a team: one for each residue of the team size. */
  predicate TeamSegments(xs: seq<Segment>) {
    |xs| >= 1 &&
    forall i | 0 <= i < |xs| :: Plain(xs[i]) && xs[i].span == |xs| && Residue(xs[i].offset, |xs|) == i
  }

  lemma StillTeamSegments(xs: seq<Segment>, xs': seq<Segment>, j: nat)
    requires TeamSegments(xs) && |xs'| == |xs| && j < |xs| && Plain(xs'[j]) && SameResidue(xs[j], xs'[j])
    requires forall i | 0 <= i < |xs| && i != j :: xs'[i] == xs[i]
    ensures TeamSegments(xs')
  {
  }

  /** `p'` is `p` after one or more barriers of a region it forked. */
  predicate Advanced(p: Segment, p': Segment) {
    Plain(p) && Plain(p') && SameResidue(p, p') && p.offset < p'.offset
  }

  ghost predicate SomeOrdered(h: Label, base: Label, xs: seq<Segment>) {
    exists i | 0 <= i < |xs| :: Judge(h, base + [xs[i]]) == Ordered
  }

  ghost predicate NoneFatal(h: Label, base: Label, xs: seq<Segment>) {
    forall i | 0 <= i < |xs| :: Judge(h, base + [xs[i]]) != Fatal
  }

  lemma TeamMovesToTail(h: Label, base: Label, xs: seq<Segment>)
    requires h != [] && base != [] && h[0] == base[0]
    ensures NoneFatal(h, base, xs) <==> NoneFatal(h[1..], base[1..], xs)
    ensures SomeOrdered(h, base, xs) <==> SomeOrdered(h[1..], base[1..], xs)
  {
    forall i | 0 <= i < |xs| ensures Judge(h, base + [xs[i]]) == Judge(h[1..], base[1..] + [xs[i]]) {
      assert (base + [xs[i]])[1..] == base[1..] + [xs[i]];
    }
  }

  /** The member with the residue of `z` is ordered after it, unless the verdict is fatal. */
  lemma SomeMemberOrdered(h: Label, xs: seq<Segment>)
    requires AllPlain(h) && TeamSegments(xs)
    requires NoneFatal(h, [], xs)
    ensures SomeOrdered(h, [], xs)
  {
    if h == [] {
      assert Judge(h, [] + [xs[0]]) == Ordered;
    } else {
      var z := h[0];
      assert Plain(z);
      assert Judge(h, [] + [xs[0]]) != Fatal;
      assert z.span == |xs|;
      var i := Residue(z.offset, |xs|);
      assert Judge(h, [] + [xs[i]]) != Fatal;
      assert ([] + [xs[i]])[1..] == [];
      assert Judge(h, [] + [xs[i]]) == Ordered;
    }
  }

  /** Replacing the last segment of the shared prefix, as a barrier does. */
  function Advance(base: Label, p': Segment): Label
    requires base != []
  {
    WithLast(base, p')
  }

  /** `base` is `l` with its last offset moved by whole spans. */
  predicate Follows(l: Label, base: Label) {
    && l != [] && |base| == |l| && DropLast(base) == DropLast(l)
    && Plain(Last(l)) && Plain(Last(base)) && SameResidue(Last(l), Last(base))
  }

  predicate BumpFits(l: Label) {
    |l| >= 2 && l[|l| - 2].offset + l[|l| - 2].span < FIELD16
  }

  lemma FollowsAdvance(l: Label, base: Label, p': Segment)
    requires Follows(l, base) && Advanced(Last(base), p')
    ensures Follows(l, Advance(base, p'))
  {
  }

  lemma BarrierSplits(base: Label, x: Segment)
    requires base != []
    ensures BarrierEnd(base + [x]) == Advance(base, Bump(Last(base))) + [x]
  {
  }

  lemma LastSplits(base: Label, x: Segment)
    ensures DropLast(base + [x]) == base && Last(base + [x]) == x
  {
  }

  lemma BumpAdvances(l: Label, base: Label, x: Segment)
    requires l == base + [x] && base != [] && AllPlain(l) && BumpFits(l)
    ensures AllPlain(base) && Plain(x)
    ensures Advanced(Last(base), Bump(Last(base))) && AllPlain(Advance(base, Bump(Last(base))))
  {
    PlainAppend(base, x);
    PlainAt(base, |base| - 1);
    assert base == DropLast(base) + [Last(base)];
    PlainAppend(DropLast(base), Last(base));
    PlainAppend(DropLast(base), Bump(Last(base)));
  }

  /** The barrier law: an access is ordered before what follows a barrier exactly
      when it is ordered before some member of the team when the barrier completes. */
  lemma {:induction false} JudgeBarrier(h: Label, base: Label, p': Segment, xs: seq<Segment>, tail: Label)
    requires base != [] && AllPlain(h)
    requires Advanced(Last(base), p') && TeamSegments(xs)
    requires NoneFatal(h, base, xs)
    ensures Judge(h, Advance(base, p') + tail) == (if SomeOrdered(h, base, xs) then Ordered else Concurrent)
  {
    var c := Advance(base, p') + tail;
    assert Judge(h, base + [xs[0]]) != Fatal;
    if h == [] {
      assert Judge(h, base + [xs[0]]) == Ordered;
    } else {
      assert Plain(h[0]);
      if h[0] == base[0] {
        TeamMovesToTail(h, base, xs);
        if |base| == 1 {
          assert base[1..] == [];
          SomeMemberOrdered(h[1..], xs);
        } else {
          JudgeBarrier(h[1..], base[1..], p', xs, tail);
          assert c[1..] == Advance(base[1..], p') + tail;
        }
      } else {
        assert forall i | 0 <= i < |xs| :: Judge(h, base + [xs[i]]) == Judge(h, base);
        if |base| == 1 && Judge(h, base) == Concurrent {
          assert h[0] != p';
        }
      }
    }
  }

  /** A prefix that a barrier has just produced is not yet part of any label. */
  lemma {:induction false} AdvancedIsNew(h: Label, base: Label, p': Segment, xs: seq<Segment>)
    requires base != [] && AllPlain(h)
    requires Advanced(Last(base), p') && TeamSegments(xs)
    requires NoneFatal(h, base, xs)
    ensures !(Advance(base, p') <= h)
  {
    if Advance(base, p') <= h {
      assert Judge(h, base + [xs[0]]) != Fatal;
      assert h[0] == Advance(base, p')[0];
      if |base| == 1 {
        assert false;
      } else {
        assert h[0] == base[0];
        TeamMovesToTail(h, base, xs);
        assert Advance(base[1..], p') == Advance(base, p')[1..] <= h[1..];
        AdvancedIsNew(h[1..], base[1..], p', xs);
        assert false;
      }
    }
  }

  /** What is concurrent with every member of a team is not below the team's prefix. */
  lemma {:induction false} ConcurrentIsOutside(h: Label, base: Label, xs: seq<Segment>)
    requires AllPlain(h) && TeamSegments(xs)
    requires NoneFatal(h, base, xs) && !SomeOrdered(h, base, xs)
    ensures !(base <= h)
  {
    if base <= h {
      if base == [] {
        SomeMemberOrdered(h, xs);
        assert false;
      } else {
        TeamMovesToTail(h, base, xs);
        assert base[1..] <= h[1..];
        ConcurrentIsOutside(h[1..], base[1..], xs);
        assert false;
      }
    }
  }

  /** A join drops the member's segment: no verdict changes for labels outside the prefix. */
  lemma {:induction false} JudgeDropLast(h: Label, base: Label, x: Segment)
    requires Judge(h, base + [x]) != Fatal && !(base <= h)
    ensures Judge(h, base) == Judge(h, base + [x])
  {
    if h != [] && h[0] == base[0] {
      assert (base + [x])[1..] == base[1..] + [x];
      assert base == [base[0]] + base[1..] && h == [h[0]] + h[1..];
      JudgeDropLast(h[1..], base[1..], x);
    }
  }

  lemma {:induction false} JudgeAfter(l: Label, x: Segment, y: Segment, a: Label, b: Label)
    ensures Judge(l + [x] + a, l + [y] + b) == Judge([x] + a, [y] + b)
  {
    if l == [] {
      assert l + [x] + a == [x] + a && l + [y] + b == [y] + b;
    } else {
      assert (l + [x] + a)[1..] == l[1..] + [x] + a && (l + [y] + b)[1..] == l[1..] + [y] + b;
      JudgeAfter(l[1..], x, y, a, b);
    }
  }

  lemma BumpVerdict(p: Segment, a: Label)
    requires Plain(p) && p.offset < FIELD16 && p.span < FIELD16
    ensures Plain(Bump(p))
    ensures Judge([p] + a, [Bump(p)] + a) == Ordered <==> p.offset + p.span < FIELD16
  {
    if p.offset + p.span < FIELD16 {
      assert Bump(p).offset == p.offset + p.span;
    } else {
      assert Bump(p).offset == p.offset + p.span - FIELD16;
    }
  }

  lemma PlainReplaced(l: Label, p: Segment, p': Segment, x: Segment)
    requires AllPlain(l + [p] + [x]) && Plain(p')
    ensures AllPlain(l + [p'] + [x])
  {
    PlainAppend(l + [p], x);
    PlainAppend(l, p);
    PlainAppend(l, p');
    PlainAppend(l + [p'], x);
  }

  /** A label is ordered before what its barrier makes of it exactly when the advanced
      offset fits its 16-bit field. */
  lemma BarrierOrdersIffFits(l: Label)
    requires AllPlain(l) && |l| >= 2 && l[|l| - 2].offset < FIELD16 && l[|l| - 2].span < FIELD16
    ensures HappensBefore(l, BarrierEnd(l)) == Ordered <==> BumpFits(l)
  {
    var n := |l| - 2;
    var p, x := l[n], l[n + 1];
    PlainAt(l, n);
    BumpVerdict(p, [x]);
    assert l == l[..n] + [p] + [x] && BarrierEnd(l) == l[..n] + [Bump(p)] + [x];
    JudgeAfter(l[..n], p, Bump(p), [x], [x]);
    PlainReplaced(l[..n], p, Bump(p), x);
    JudgeIsHappensBefore(l, BarrierEnd(l));
  }
}
