/** When reassembly notices that a datagram is complete: the exact condition on the order in
    which its fragments arrive. */
module FragmentOrder {
  import opened Fragments

  // ---- ascending lists -----------------------------------------------------

  /** The entries are the received runs of bytes, in ascending order. */
  predicate Ascending(fs: seq<Interval>) { forall i, j | 0 <= i < j < |fs| :: End(fs[i]) < fs[j].offset }

  /** Nothing on the list lies below its first entry. */
  predicate FirstLowest(fs: seq<Interval>) { forall j | 0 < j < |fs| :: End(fs[0]) <= fs[j].offset }

  /** Entries 0 < i < j are out of order or touch each other. */
  predicate Tangled(fs: seq<Interval>, i: nat, j: nat) {
    0 < i < j < |fs| && fs[j].offset <= End(fs[i])
  }

  /** Entry j continues the first one. */
  predicate Touching(fs: seq<Interval>, j: nat) { 0 < j < |fs| && fs[j].offset == End(fs[0]) }

  lemma NotAscending(fs: seq<Interval>)
    requires FirstLowest(fs)
    ensures !Ascending(fs) <==> (exists i, j :: Tangled(fs, i, j)) || (exists j :: Touching(fs, j))
  {
    if !Ascending(fs) {
      var i, j :| 0 <= i < j < |fs| && fs[j].offset <= End(fs[i]);
      if i == 0 {
        assert Touching(fs, j);
      } else {
        assert Tangled(fs, i, j);
      }
    }
  }

  /** What recording a fragment does, at the head of the list. */
  datatype Change = Start | Extend | Merge | Lower | After | Before

  function ChangeOf(fs: seq<Interval>, f: Interval): Change {
    if fs == [] then Start
    else if End(fs[0]) == f.offset then (if 1 < |fs| && End(f) == fs[1].offset then Merge else Extend)
    else if End(f) == fs[0].offset then Lower
    else if f.offset > End(fs[0]) then After else Before
  }

  function Changed(fs: seq<Interval>, f: Interval): seq<Interval> {
    match ChangeOf(fs, f)
    case Start => [f]
    case Extend => [Interval(fs[0].offset, fs[0].len + f.len)] + fs[1..]
    case Merge => [Interval(fs[0].offset, fs[0].len + f.len + fs[1].len)] + fs[2..]
    case Lower => [Interval(f.offset, fs[0].len + f.len)] + fs[1..]
    case After => [fs[0]] + [f] + fs[1..]
    case Before => [f] + fs
  }

  lemma InsertIsChange(fs: seq<Interval>, f: Interval)
    requires Apart(fs) && f.len > 0 && !Overlap(fs, f)
    ensures Insert(fs, 0, f) == Changed(fs, f)
  {
    InsertIsLocal(fs, f);
  }

  /** `f` meets no entry of `fs`. */
  lemma Clear(fs: seq<Interval>, f: Interval, k: nat)
    requires Apart(fs) && f.len > 0 && !Overlap(fs, f) && k < |fs|
    ensures fs[k].len > 0 && (End(f) <= fs[k].offset || End(fs[k]) <= f.offset)
    ensures forall j | 0 <= j < |fs| && j != k :: End(fs[j]) <= fs[k].offset || End(fs[k]) <= fs[j].offset
  {
    assert !Meet(f, fs[k]);
    forall j | 0 <= j < |fs| && j != k ensures End(fs[j]) <= fs[k].offset || End(fs[k]) <= fs[j].offset {
      assert !Meet(fs[if j < k then j else k], fs[if j < k then k else j]);
      assert fs[j].len > 0 && fs[k].len > 0;
    }
  }

  /** Where entry `j` of the list goes, if it is not merged. */
  function Moved(c: Change, j: nat): nat {
    match c
    case Merge => if j > 0 then j - 1 else 0
    case After => if j > 0 then j + 1 else 0
    case Before => j + 1
    case _ => j
  }

  lemma MovedEntry(fs: seq<Interval>, f: Interval, j: nat)
    requires fs != [] && (if ChangeOf(fs, f).Merge? then 1 else 0) < j < |fs|
    ensures var r, m := Changed(fs, f), Moved(ChangeOf(fs, f), j); 0 < m < |r| && r[m] == fs[j]
  {
  }

  lemma FirstStaysLowest(fs: seq<Interval>, f: Interval)
    requires Apart(fs) && f.len > 0 && !Overlap(fs, f) && FirstLowest(fs)
    ensures FirstLowest(Changed(fs, f))
  {
    hide Apart, Overlap;
    var r := Changed(fs, f);
    forall j | 0 < j < |r| ensures End(r[0]) <= r[j].offset {
      StillHigher(fs, f, j);
    }
  }

  lemma StillHigher(fs: seq<Interval>, f: Interval, j: nat)
    requires Apart(fs) && f.len > 0 && !Overlap(fs, f) && FirstLowest(fs) && 0 < j < |Changed(fs, f)|
    ensures End(Changed(fs, f)[0]) <= Changed(fs, f)[j].offset
  {
    hide Apart, Overlap;
    ChangedAt(fs, f, 0);
    ChangedAt(fs, f, j);
    hide Changed;
    var c := ChangeOf(fs, f);
    var k := match c case Merge => j + 1 case After => (if j > 1 then j - 1 else 0) case Before => j - 1 case _ => j;
    if fs != [] && k < |fs| {
      Clear(fs, f, k);
      Clear(fs, f, 0);
      if c.Merge? {
        Clear(fs, f, 1);
      }
    }
  }

  // ---- a tangle stays ------------------------------------------------------

  lemma TangledStays(fs: seq<Interval>, f: Interval, i: nat, j: nat)
    requires Apart(fs) && f.len > 0 && !Overlap(fs, f) && FirstLowest(fs) && Tangled(fs, i, j)
    ensures !Ascending(Changed(fs, f))
  {
    hide Apart, Overlap;
    var c, r := ChangeOf(fs, f), Changed(fs, f);
    if c.Merge? && i == 1 {
      Clear(fs, f, j);
      Clear(fs, f, 1);
      MovedEntry(fs, f, j);
      assert End(r[0]) == End(fs[1]) == fs[j].offset;
    } else {
      MovedEntry(fs, f, i);
      MovedEntry(fs, f, j);
    }
  }

  lemma TouchingStays(fs: seq<Interval>, f: Interval, j: nat)
    requires Apart(fs) && f.len > 0 && !Overlap(fs, f) && FirstLowest(fs) && Touching(fs, j)
    ensures !Ascending(Changed(fs, f))
  {
    hide Apart, Overlap;
    var c, r := ChangeOf(fs, f), Changed(fs, f);
    Clear(fs, f, j);
    if c.Before? {
      MovedEntry(fs, f, j);
      assert r[1] == fs[0] && r[j + 1].offset <= End(r[1]);
    } else if c.Lower? || c.After? {
      MovedEntry(fs, f, j);
      assert r[Moved(c, j)].offset <= End(r[0]);
    }
  }

  lemma DisorderStays(fs: seq<Interval>, f: Interval)
    requires Apart(fs) && f.len > 0 && !Overlap(fs, f) && FirstLowest(fs) && !Ascending(fs)
    ensures !Ascending(Changed(fs, f))
  {
    hide Apart, Overlap, Ascending, FirstLowest, Tangled, Touching, Changed;
    NotAscending(fs);
    if i, j :| Tangled(fs, i, j) {
      TangledStays(fs, f, i, j);
    } else {
      var j :| Touching(fs, j);
      TouchingStays(fs, f, j);
    }
  }

  // ---- arrivals that keep the order ----------------------------------------

  /** At most one run lies below the new fragment, and if it does not continue that run it does
      not end where the next one starts either. */
  predicate Fine(fs: seq<Interval>, f: Interval) {
    && (1 < |fs| ==> f.offset < fs[1].offset)
    && (1 < |fs| && fs[0].offset < f.offset && End(fs[0]) != f.offset ==> fs[1].offset != End(f))
  }

  lemma FineKeeps(fs: seq<Interval>, f: Interval)
    requires Apart(fs) && f.len > 0 && !Overlap(fs, f) && Ascending(fs) && Fine(fs, f)
    ensures Ascending(Changed(fs, f))
  {
    hide Apart, Overlap;
    var r := Changed(fs, f);
    forall i, j | 0 <= i < j < |r| ensures End(r[i]) < r[j].offset {
      FinePair(fs, f, i, j);
    }
  }

  /** All entries but the first are above a fragment that arrives fine. */
  lemma FineAbove(fs: seq<Interval>, f: Interval, j: nat)
    requires Apart(fs) && f.len > 0 && !Overlap(fs, f) && Ascending(fs) && Fine(fs, f) && 0 < j < |fs|
    ensures End(f) <= fs[j].offset && (End(f) == fs[j].offset ==> j == 1)
  {
    Clear(fs, f, 1);
    hide Apart, Overlap, Fine;
    assert j > 1 ==> End(fs[1]) < fs[j].offset;
  }

  lemma FinePair(fs: seq<Interval>, f: Interval, i: nat, j: nat)
    requires Apart(fs) && f.len > 0 && !Overlap(fs, f) && Ascending(fs) && Fine(fs, f) && i < j < |Changed(fs, f)|
    ensures End(Changed(fs, f)[i]) < Changed(fs, f)[j].offset
  {
    hide Apart, Overlap, Ascending, Changed;
    var c := ChangeOf(fs, f);
    var a, b := Back(c, i), Back(c, j);
    ChangedAt(fs, f, i);
    ChangedAt(fs, f, j);
    if fs != [] {
      Clear(fs, f, 0);
    }
    if 0 < b < |fs| {
      FineAbove(fs, f, b);
      AscendingAt(fs, 0, b);
    }
    if 0 <= a < b < |fs| {
      AscendingAt(fs, a, b);
    }
    if 1 < b < |fs| {
      AscendingAt(fs, 1, b);
    }
  }

  /** The first entry of the changed list. */
  function Front(fs: seq<Interval>, f: Interval): Interval {
    match ChangeOf(fs, f)
    case Start => f
    case Extend => Interval(fs[0].offset, fs[0].len + f.len)
    case Merge => Interval(fs[0].offset, fs[0].len + f.len + fs[1].len)
    case Lower => Interval(f.offset, fs[0].len + f.len)
    case After => fs[0]
    case Before => f
  }

  /** The entries of the changed list, one by one. */
  lemma ChangedAt(fs: seq<Interval>, f: Interval, k: nat)
    requires k < |Changed(fs, f)|
    ensures var c := ChangeOf(fs, f); var b := Back(c, k);
      && (k > 1 || (k == 1 && !c.After?) ==> 0 < b + 1 && 0 <= b < |fs| && Changed(fs, f)[k] == fs[b])
      && (k == 1 && c.After? ==> Changed(fs, f)[k] == f)
      && (k == 0 ==> Changed(fs, f)[k] == Front(fs, f))
  {
  }

  lemma AscendingAt(fs: seq<Interval>, i: nat, j: nat)
    requires Ascending(fs) && i < j < |fs|
    ensures End(fs[i]) < fs[j].offset
  {
  }

  /** Where a later entry of the changed list comes from. */
  function Back(c: Change, k: nat): int {
    match c
    case Merge => k + 1
    case After => k - 1
    case Before => k - 1
    case _ => k
  }

  lemma NotFineBreaks(fs: seq<Interval>, f: Interval)
    requires Apart(fs) && f.len > 0 && !Overlap(fs, f) && Ascending(fs) && !Fine(fs, f)
    ensures !Ascending(Changed(fs, f))
  {
    hide Apart, Overlap;
    Clear(fs, f, 0);
    Clear(fs, f, 1);
    var r := Changed(fs, f);
    assert End(fs[0]) < fs[1].offset;
    assert r[1] == f && r[2] == fs[1] && r[2].offset <= End(r[1]);
  }

  /** Recording a fragment keeps an ascending list exactly if its arrival is fine; a list that is
      not ascending never becomes so. */
  lemma OrderStep(fs: seq<Interval>, f: Interval)
    requires Apart(fs) && f.len > 0 && !Overlap(fs, f) && FirstLowest(fs)
    ensures FirstLowest(Insert(fs, 0, f))
    ensures Ascending(Insert(fs, 0, f)) <==> Ascending(fs) && Fine(fs, f)
  {
    hide *;
    InsertIsChange(fs, f);
    FirstStaysLowest(fs, f);
    if !Ascending(fs) {
      DisorderStays(fs, f);
    } else if Fine(fs, f) {
      FineKeeps(fs, f);
    } else {
      NotFineBreaks(fs, f);
    }
  }

  // ---- the same, said of the fragments -------------------------------------

  /** Fragments of one datagram: inside it, not empty, not overlapping. */
  ghost predicate Pieces(ps: seq<Piece>, size: nat) {
    && (forall k | 0 <= k < |ps| :: Fits(size, ps[k]))
    && (forall i, j | 0 <= i < j < |ps| :: !Meet(Span(ps[i]), Span(ps[j])))
  }

  /** The received bytes below `offset` are none or one run. */
  ghost predicate OneRunBelow(ps: seq<Piece>, offset: nat) {
    forall x: nat, y: nat, z: nat | x < y < z < offset && CoveredBy(ps, x) && CoveredBy(ps, z) :: CoveredBy(ps, y)
  }

  /** Some byte below `offset` was received, but not the one right before it. */
  ghost predicate GapBelow(ps: seq<Piece>, offset: nat) {
    (exists x: nat :: x < offset && CoveredBy(ps, x)) && !CoveredBy(ps, offset - 1)
  }

  /** Fragment `p` arrives after `ps`: what is there below it is one run at most, and if `p` does
      not continue that run, no earlier fragment starts where `p` ends. */
  ghost predicate FineArrival(ps: seq<Piece>, p: Piece) {
    && OneRunBelow(ps, p.offset)
    && (GapBelow(ps, p.offset) ==> forall m | 0 <= m < |ps| :: ps[m].offset != End(Span(p)))
  }

  /** The list of intervals stands for the fragments. */
  ghost predicate Stands(fs: seq<Interval>, ps: seq<Piece>) {
    Apart(fs) && FirstLowest(fs) && forall x: nat :: Covers(fs, x) <==> CoveredBy(ps, x)
  }

  lemma CoverAt(fs: seq<Interval>, ps: seq<Piece>, k: nat, x: nat)
    requires Stands(fs, ps) && k < |fs| && In(fs[k], x)
    ensures CoveredBy(ps, x)
  {
    assert Covers(fs, x);
  }

  lemma CoverOf(fs: seq<Interval>, ps: seq<Piece>, x: nat) returns (k: nat)
    requires Stands(fs, ps) && CoveredBy(ps, x)
    ensures k < |fs| && In(fs[k], x)
  {
    assert Covers(fs, x);
    k :| 0 <= k < |fs| && In(fs[k], x);
  }

  lemma PieceStartsAt(ps: seq<Piece>, p: Piece, size: nat)
    requires Pieces(ps + [p], size) && CoveredBy(ps, End(Span(p)))
    ensures exists m :: 0 <= m < |ps| && ps[m].offset == End(Span(p))
  {
    var m :| 0 <= m < |ps| && In(Span(ps[m]), End(Span(p)));
    assert (ps + [p])[m] == ps[m] && (ps + [p])[|ps|] == p;
    assert !Meet(Span((ps + [p])[m]), Span((ps + [p])[|ps|]));
    assert Fits(size, (ps + [p])[m]) && Fits(size, (ps + [p])[|ps|]);
    assert ps[m].offset == End(Span(p));
  }

  lemma StartIsCovered(ps: seq<Piece>, size: nat, m: nat)
    requires Pieces(ps, size) && m < |ps|
    ensures CoveredBy(ps, ps[m].offset)
  {
    assert Fits(size, ps[m]);
    assert In(Span(ps[m]), ps[m].offset);
  }

  lemma FineOneRun(fs: seq<Interval>, ps: seq<Piece>, p: Piece)
    requires Stands(fs, ps) && Ascending(fs) && p.data != [] && !Overlap(fs, Span(p))
    ensures (1 < |fs| ==> p.offset < fs[1].offset) <==> OneRunBelow(ps, p.offset)
  {
    hide Apart, Overlap, Covers, CoveredBy;
    var f := Span(p);
    if 1 < |fs| && fs[1].offset <= p.offset {
      Clear(fs, f, 0);
      Clear(fs, f, 1);
      var x, y, z := fs[0].offset, End(fs[0]), fs[1].offset;
      assert y < z;
      CoverAt(fs, ps, 0, x);
      CoverAt(fs, ps, 1, z);
      GapAfterFirst(fs, ps);
      assert x < y < z < p.offset;
      assert !OneRunBelow(ps, p.offset);
    } else {
      forall x: nat, y: nat, z: nat | x < y < z < p.offset && CoveredBy(ps, x) && CoveredBy(ps, z) ensures CoveredBy(ps, y) {
        var a := CoverOf(fs, ps, x);
        var b := CoverOf(fs, ps, z);
        BelowSecond(fs, p.offset, a, x);
        BelowSecond(fs, p.offset, b, z);
        CoverAt(fs, ps, 0, y);
      }
    }
  }

  lemma GapAfterFirst(fs: seq<Interval>, ps: seq<Piece>)
    requires Stands(fs, ps) && Ascending(fs) && fs != []
    ensures !CoveredBy(ps, End(fs[0]))
  {
    hide Apart, CoveredBy;
    if CoveredBy(ps, End(fs[0])) {
      var k := CoverOf(fs, ps, End(fs[0]));
    }
  }

  lemma BelowSecond(fs: seq<Interval>, offset: nat, k: nat, x: nat)
    requires Ascending(fs) && k < |fs| && In(fs[k], x) && x < offset && (1 < |fs| ==> offset < fs[1].offset)
    ensures k == 0
  {
  }

  lemma FineGap(fs: seq<Interval>, ps: seq<Piece>, p: Piece, size: nat)
    requires Stands(fs, ps) && Ascending(fs) && Pieces(ps + [p], size) && p.data != [] && !Overlap(fs, Span(p))
    requires 1 < |fs| ==> p.offset < fs[1].offset
    ensures GapBelow(ps, p.offset) <==> fs != [] && fs[0].offset < p.offset && End(fs[0]) != p.offset
  {
    hide Apart, Overlap, Covers, CoveredBy, Pieces;
    if fs != [] {
      Clear(fs, Span(p), 0);
    }
    if fs != [] && fs[0].offset < p.offset && End(fs[0]) != p.offset {
      CoverAt(fs, ps, 0, fs[0].offset);
      NotRightBefore(fs, ps, p.offset);
    }
    if GapBelow(ps, p.offset) {
      var x: nat :| x < p.offset && CoveredBy(ps, x);
      var k := CoverOf(fs, ps, x);
      BelowSecond(fs, p.offset, k, x);
      if End(fs[0]) == p.offset {
        CoverAt(fs, ps, 0, p.offset - 1);
      }
    }
  }

  lemma NotRightBefore(fs: seq<Interval>, ps: seq<Piece>, offset: nat)
    requires Stands(fs, ps) && Ascending(fs) && fs != [] && End(fs[0]) < offset && (1 < |fs| ==> offset < fs[1].offset)
    ensures !CoveredBy(ps, offset - 1)
  {
    hide Apart, CoveredBy, Covers;
    if CoveredBy(ps, offset - 1) {
      var k := CoverOf(fs, ps, offset - 1);
      BelowSecond(fs, offset, k, offset - 1);
    }
  }

  /** A fragment starts where `p` ends exactly if the second entry does. */
  lemma FineNext(fs: seq<Interval>, ps: seq<Piece>, p: Piece, size: nat)
    requires Stands(fs, ps) && Ascending(fs) && Pieces(ps + [p], size) && p.data != [] && !Overlap(fs, Span(p))
    requires fs != [] && fs[0].offset < p.offset && (1 < |fs| ==> p.offset < fs[1].offset)
    ensures (exists m :: 0 <= m < |ps| && ps[m].offset == End(Span(p))) <==> 1 < |fs| && fs[1].offset == End(Span(p))
  {
    hide Apart, Overlap, Covers, CoveredBy, Pieces;
    var f := Span(p);
    Clear(fs, f, 0);
    if 1 < |fs| && fs[1].offset == End(f) {
      Clear(fs, f, 1);
      CoverAt(fs, ps, 1, End(f));
      PieceStartsAt(ps, p, size);
    }
    if m :| 0 <= m < |ps| && ps[m].offset == End(f) {
      PiecesFront(ps, p, size);
      StartIsCovered(ps, size, m);
      var k := CoverOf(fs, ps, End(f));
      Clear(fs, f, k);
      if 1 < |fs| {
        Clear(fs, f, 1);
      }
      SecondHolds(fs, f, k);
    }
  }

  lemma PiecesFront(ps: seq<Piece>, p: Piece, size: nat)
    requires Pieces(ps + [p], size)
    ensures Pieces(ps, size) && Fits(size, p) && p.data != [] && Span(p).len > 0
    ensures forall m | 0 <= m < |ps| :: !Meet(Span(ps[m]), Span(p))
  {
    var all := ps + [p];
    assert all[|ps|] == p && forall m | 0 <= m < |ps| :: all[m] == ps[m];
  }

  lemma SecondHolds(fs: seq<Interval>, f: Interval, k: nat)
    requires Ascending(fs) && k < |fs| && In(fs[k], End(f)) && (End(f) <= fs[k].offset || End(fs[k]) <= f.offset)
    requires f.len > 0 && fs[0].offset < f.offset && (End(fs[0]) <= f.offset || End(f) <= fs[0].offset)
    requires 1 < |fs| ==> f.offset < fs[1].offset && (End(f) <= fs[1].offset || End(fs[1]) <= f.offset)
    requires 1 < |fs| ==> fs[1].len > 0
    ensures 1 < |fs| && fs[1].offset == End(f)
  {
  }

  lemma FineIsArrival(fs: seq<Interval>, ps: seq<Piece>, p: Piece, size: nat)
    requires Stands(fs, ps) && Ascending(fs) && Pieces(ps + [p], size) && p.data != [] && !Overlap(fs, Span(p))
    ensures Fine(fs, Span(p)) <==> FineArrival(ps, p)
  {
    hide Stands, Ascending, Pieces, Overlap, OneRunBelow, GapBelow;
    FineOneRun(fs, ps, p);
    if 1 < |fs| ==> p.offset < fs[1].offset {
      FineGap(fs, ps, p, size);
      if fs != [] && fs[0].offset < p.offset {
        FineNext(fs, ps, p, size);
      }
    }
  }

  // ---- all arrivals --------------------------------------------------------

  /** The list of intervals after fragments have arrived in the given order. */
  function ListAfter(ps: seq<Piece>): seq<Interval> {
    if ps == [] then [] else Insert(ListAfter(ps[..|ps| - 1]), 0, Span(ps[|ps| - 1]))
  }

  ghost predicate AllFine(ps: seq<Piece>) {
    forall k | 0 <= k < |ps| :: FineArrival(ps[..k], ps[k])
  }

  lemma AllFineStep(ps: seq<Piece>)
    requires ps != []
    ensures AllFine(ps) <==> AllFine(ps[..|ps| - 1]) && FineArrival(ps[..|ps| - 1], ps[|ps| - 1])
  {
    hide FineArrival;
    var n := |ps| - 1;
    var front := ps[..n];
    assert forall k | 0 <= k < n :: front[..k] == ps[..k] && front[k] == ps[k];
  }

  /** Whatever the order, the list covers what arrived; it is ascending exactly if every arrival
      was fine. */
  lemma {:induction false} ListAfterIs(ps: seq<Piece>, size: nat)
    requires Pieces(ps, size)
    ensures Stands(ListAfter(ps), ps) && (Ascending(ListAfter(ps)) <==> AllFine(ps))
    ensures ps != [] ==> ListAfter(ps) != []
  {
    hide *;
    ListAfterStep(ps);
    if ps == [] {
      NothingArrived();
    } else {
      var front, p := ps[..|ps| - 1], ps[|ps| - 1];
      assert ps == front + [p];
      PiecesFront(front, p, size);
      ListAfterIs(front, size);
      var fs := ListAfter(front);
      NoOverlapWith(fs, front, p);
      StandsStep(fs, front, p);
      StandsShape(fs, front);
      OrderStep(fs, Span(p));
      if Ascending(fs) {
        FineIsArrival(fs, front, p, size);
      }
      AllFineStep(ps);
      StandsNonEmpty(Insert(fs, 0, Span(p)), front, p);
    }
  }

  lemma ListAfterStep(ps: seq<Piece>)
    ensures ps == [] ==> ListAfter(ps) == []
    ensures ps != [] ==> ListAfter(ps) == Insert(ListAfter(ps[..|ps| - 1]), 0, Span(ps[|ps| - 1]))
  {
    hide Insert, Span;
  }

  lemma StandsShape(fs: seq<Interval>, ps: seq<Piece>)
    requires Stands(fs, ps)
    ensures Apart(fs) && FirstLowest(fs)
  {
  }

  lemma StandsNonEmpty(fs: seq<Interval>, ps: seq<Piece>, p: Piece)
    requires Stands(fs, ps + [p]) && p.data != []
    ensures fs != []
  {
    var all := ps + [p];
    assert In(Span(all[|ps|]), p.offset);
    assert CoveredBy(all, p.offset) && Covers(fs, p.offset);
  }

  lemma NothingArrived()
    ensures Stands([], []) && Ascending([]) && AllFine([])
  {
  }

  lemma NoOverlapWith(fs: seq<Interval>, ps: seq<Piece>, p: Piece)
    requires Stands(fs, ps) && p.data != [] && forall m | 0 <= m < |ps| :: !Meet(Span(ps[m]), Span(p))
    ensures !Overlap(fs, Span(p))
  {
    forall k | 0 <= k < |fs| ensures !Meet(Span(p), fs[k]) {
      if Meet(Span(p), fs[k]) {
        var x := if p.offset < fs[k].offset then fs[k].offset else p.offset;
        MeetsPiece(fs, ps, p, k, x);
      }
    }
  }

  lemma MeetsPiece(fs: seq<Interval>, ps: seq<Piece>, p: Piece, k: nat, x: nat)
    requires Stands(fs, ps) && k < |fs| && In(fs[k], x) && In(Span(p), x)
    ensures exists m :: 0 <= m < |ps| && Meet(Span(ps[m]), Span(p))
  {
    CoverAt(fs, ps, k, x);
    var m :| 0 <= m < |ps| && In(Span(ps[m]), x);
    assert Meet(Span(ps[m]), Span(p));
  }

  lemma StandsStep(fs: seq<Interval>, ps: seq<Piece>, p: Piece)
    requires Stands(fs, ps) && p.data != [] && !Overlap(fs, Span(p))
    ensures Stands(Insert(fs, 0, Span(p)), ps + [p]) && Insert(fs, 0, Span(p)) != []
  {
    hide Insert, Apart, Overlap, Covers, CoveredBy, FirstLowest, Ascending, Fine;
    InsertExact(fs, Span(p));
    OrderStep(fs, Span(p));
    forall x: nat ensures Covers(Insert(fs, 0, Span(p)), x) <==> CoveredBy(ps + [p], x) {
      PiecesStep(ps, p, x);
    }
  }

  /** Once every byte is there, the first entry is the whole datagram exactly if the list is
      ascending. */
  lemma WholeIsAscending(fs: seq<Interval>, ps: seq<Piece>, size: nat)
    requires Stands(fs, ps) && fs != [] && size > 0 && forall x: nat :: CoveredBy(ps, x) <==> x < size
    ensures fs[0].len == size <==> Ascending(fs)
  {
    hide Covers, CoveredBy;
    if Ascending(fs) {
      GapAfterFirst(fs, ps);
      LastByte(fs, ps, 0, size);
      var k := CoverOf(fs, ps, 0);
    } else {
      var i, j :| 0 <= i < j < |fs| && fs[j].offset <= End(fs[i]);
      LastByte(fs, ps, j, size);
      assert End(fs[0]) <= fs[j].offset && fs[j].len > 0;
    }
  }

  lemma LastByte(fs: seq<Interval>, ps: seq<Piece>, k: nat, size: nat)
    requires Stands(fs, ps) && k < |fs| && forall x: nat :: CoveredBy(ps, x) <==> x < size
    ensures fs[k].len > 0 && End(fs[k]) <= size
  {
    assert fs[k].len > 0;
    CoverAt(fs, ps, k, End(fs[k]) - 1);
  }

  /** Completion for any order of arrival: once all bytes are there, it is noticed if and only if
      every fragment arrived fine. */
  lemma CompleteIff(ps: seq<Piece>, size: nat)
    requires Pieces(ps, size) && size > 0 && forall x: nat :: CoveredBy(ps, x) <==> x < size
    ensures ListAfter(ps) != [] && (ListAfter(ps)[0].len == size <==> AllFine(ps))
  {
    hide Stands, Ascending, AllFine, Pieces, ListAfter;
    SomethingArrived(ps, size);
    ListAfterIs(ps, size);
    WholeIsAscending(ListAfter(ps), ps, size);
  }

  lemma SomethingArrived(ps: seq<Piece>, size: nat)
    requires size > 0 && forall x: nat :: CoveredBy(ps, x) <==> x < size
    ensures ps != []
  {
    assert CoveredBy(ps, 0);
  }

  // ---- partial datagrams ---------------------------------------------------

  /** `d` was made of the fragments `ps`, in this order. */
  ghost predicate MadeOf(d: Partial, ps: seq<Piece>) {
    ps != [] && d.received == ps && d.frags == ListAfter(ps) && PartialOk(d)
  }

  lemma MadeOfFirst(dgl: nat, size: nat, p: Piece)
    requires Fits(size, p)
    ensures MadeOf(NewPartial(dgl, size, p), [p])
  {
    NewPartialOk(dgl, size, p);
    hide PartialOk, Insert;
    assert [p][..0] == [] && ListAfter([]) == [];
    assert ListAfter([p]) == Insert([], 0, Span(p));
  }

  lemma MadeOfNext(d: Partial, ps: seq<Piece>, p: Piece)
    requires MadeOf(d, ps) && Pieces(ps + [p], d.size)
    ensures !Overlap(d.frags, Span(p)) && Fits(d.size, p) && |d.buf| == d.size && MadeOf(Updated(d, p), ps + [p])
  {
    hide PartialOk, Insert, Overlap, Pieces, Stands;
    PiecesFront(ps, p, d.size);
    ListAfterIs(ps, d.size);
    NoOverlapWith(d.frags, ps, p);
    UpdatedOk(d, p);
    FragsExist(d);
    assert (ps + [p])[..|ps|] == ps;
  }

  /** Before the last fragment nothing is complete, after it exactly if all arrivals were fine. */
  lemma CompleteWhenFine(d: Partial, ps: seq<Piece>, all: seq<Piece>)
    requires MadeOf(d, ps) && ps <= all && Pieces(all, d.size) && d.size > 0
    requires forall x: nat | x < d.size :: CoveredBy(all, x)
    ensures d.frags != [] && (IsComplete(d) <==> ps == all && AllFine(all))
  {
    hide PartialOk, AllFine, ListAfter, Pieces;
    FragsExist(d);
    if ps == all {
      PiecesInside(all, d.size);
      CompleteIff(all, d.size);
    } else if IsComplete(d) {
      CompleteMeans(d);
      SomethingMissing(ps, all, d.size);
    }
  }

  lemma PiecesInside(ps: seq<Piece>, size: nat)
    requires Pieces(ps, size)
    ensures forall x: nat :: CoveredBy(ps, x) ==> x < size
  {
    forall x: nat | CoveredBy(ps, x) ensures x < size {
      var k :| 0 <= k < |ps| && In(Span(ps[k]), x);
      assert Fits(size, ps[k]);
    }
  }

  lemma SomethingMissing(ps: seq<Piece>, all: seq<Piece>, size: nat)
    requires ps <= all && ps != all && Pieces(all, size)
    ensures exists x: nat :: x < size && !CoveredBy(ps, x)
  {
    var n := |ps|;
    assert n < |all|;
    var x := all[n].offset;
    assert Fits(size, all[n]);
    forall k | 0 <= k < |ps| ensures !In(Span(ps[k]), x) {
      assert !Meet(Span(all[k]), Span(all[n])) && Fits(size, all[k]);
    }
    assert x < size && !CoveredBy(ps, x);
  }
}
