/** The resumable cursor of `cmd/blockfetcher`: which chain points are kept
    (a rule measured from the first recorded slot), the newest-first list they
    are kept in (capped at 200), and the `{slot, hex hash}` records the list is
    written to and read back from in the cursor file. */
module Cursor {
  import opened Common
  import Hex

  const MaxPoints: nat := 200

  /** A chain point: slot and block hash. */
  datatype Point = Point(slot: U64, hash: seq<Byte>)

  /** One entry of the cursor file. */
  datatype CursorPoint = CursorPoint(slot: U64, hash: string)

  /** The retention state: `baseSlot` (0 until a point with a non-zero slot is
      recorded) and the retained points, newest first. */
  datatype Retention = Retention(baseSlot: U64, points: seq<Point>)

  /** `shouldStoreCursorPoint`, with the distance as a uint64 difference:
      everything is kept while there is no base; from a base, every point
      within 10 slots and every 100th at any distance is kept, and beyond
      1000 nothing else. */
  function ShouldStore(current: U64, base: U64): (keep: bool)
    ensures base == 0 ==> keep
    ensures Sub64(current, base) <= 10 ==> keep
    ensures Sub64(current, base) % 100 == 0 ==> keep
    ensures keep && base != 0 && Sub64(current, base) > 1000 ==> Sub64(current, base) % 100 == 0
  {
    base == 0 ||
    var distance := Sub64(current, base);
    distance <= 10 || (distance <= 1000 && distance % 10 == 0) || distance % 100 == 0
  }

  /** The three retention bands, measured from a non-zero base: every point of
      the first 10 slots, every 10th up to 1000, every 100th beyond. */
  lemma ShouldStoreBands(current: U64, base: U64)
    requires base != 0 && current >= base
    ensures current - base <= 10 ==> ShouldStore(current, base)
    ensures 10 < current - base <= 1000 ==> (ShouldStore(current, base) <==> (current - base) % 10 == 0)
    ensures 1000 < current - base ==> (ShouldStore(current, base) <==> (current - base) % 100 == 0)
  {
  }

  /** A slot before the base (after a rollback past it) gives the wrapped
      distance 2^64 - (base - current), so only the every-100th band applies. */
  lemma ShouldStoreBeforeBase(current: U64, base: U64)
    requires base != 0 && current < base && base - current < Two64 - 1000
    ensures ShouldStore(current, base) <==> (current - base + Two64) % 100 == 0
  {
  }

  lemma ShouldStoreExamples()
    ensures ShouldStore(1, 0)
    ensures forall s: U64 | 1000 <= s <= 1010 :: ShouldStore(s, 1000)
    ensures !ShouldStore(1015, 1000)
    ensures ShouldStore(1020, 1000)
    ensures ShouldStore(2000, 1000)
    ensures ShouldStore(5000, 1000)
    ensures !ShouldStore(5050, 1000)
  {
  }

  function Truncate(points: seq<Point>): seq<Point> {
    if |points| > MaxPoints then points[..MaxPoints] else points
  }

  /** `addCursorPoint` as a function of the old state: the base is fixed by
      the first point, the point is either dropped or becomes the newest
      entry, and a list within the cap stays within it. */
  function Add(r: Retention, p: Point): (a: Retention)
    ensures a.baseSlot == if r.baseSlot == 0 then p.slot else r.baseSlot
    ensures a == r || (|a.points| > 0 && a.points[0] == p)
    ensures |r.points| <= MaxPoints ==> |a.points| <= MaxPoints
  {
    if r.baseSlot == 0 then Retention(p.slot, [p])
    else if ShouldStore(p.slot, r.baseSlot) then Retention(r.baseSlot, Truncate([p] + r.points))
    else r
  }

  /** What one call of `addCursorPoint` does, case by case. */
  lemma AddCases(r: Retention, p: Point)
    ensures r.baseSlot == 0 ==> Add(r, p) == Retention(p.slot, [p])
    ensures r.baseSlot != 0 && !ShouldStore(p.slot, r.baseSlot) ==> Add(r, p) == r
    ensures r.baseSlot != 0 && ShouldStore(p.slot, r.baseSlot) ==>
      && Add(r, p).baseSlot == r.baseSlot
      && Add(r, p).points[0] == p
      && |Add(r, p).points| == (if |r.points| < MaxPoints then |r.points| + 1 else MaxPoints)
      && Add(r, p).points[1..] == r.points[..|Add(r, p).points| - 1]
  {
    if r.baseSlot != 0 && ShouldStore(p.slot, r.baseSlot) {
      var q := Add(r, p).points;
      assert ([p] + r.points)[1..] == r.points;
      if |r.points| >= MaxPoints {
        assert q[1..] == r.points[..MaxPoints - 1];
      }
    }
  }

  /** The object invariant of the cursor: at most 200 points, and once a base
      is fixed the list is non-empty and every kept point is at a retained
      distance from the base. */
  ghost predicate Valid(r: Retention) {
    && |r.points| <= MaxPoints
    && (r.baseSlot != 0 ==> |r.points| > 0)
    && (r.baseSlot != 0 ==> forall i | 0 <= i < |r.points| :: ShouldStore(r.points[i].slot, r.baseSlot))
  }

  /** After any point is added to a valid cursor, the cursor holds a point. */
  lemma AddNonEmpty(r: Retention, p: Point)
    requires Valid(r)
    ensures |Add(r, p).points| > 0
  {
  }

  lemma AddValid(r: Retention, p: Point)
    requires Valid(r)
    ensures Valid(Add(r, p))
  {
    var r' := Add(r, p);
    if r.baseSlot != 0 && ShouldStore(p.slot, r.baseSlot) {
      forall i | 0 <= i < |r'.points| ensures ShouldStore(r'.points[i].slot, r'.baseSlot) {
        if i > 0 {
          assert r'.points[i] == r.points[i - 1];
        }
      }
    }
  }

  /** Feeding a sequence of points in order, as `processBlock` does block by block. */
  function AddAll(r: Retention, ps: seq<Point>): Retention
    decreases |ps|
  {
    if ps == [] then r else AddAll(Add(r, ps[0]), ps[1..])
  }

  /** However many points are fed, the list never exceeds 200 entries and every
      entry stays at a retained distance from the base. */
  lemma {:induction false} AddAllValid(r: Retention, ps: seq<Point>)
    requires Valid(r)
    ensures Valid(AddAll(r, ps))
    decreases |ps|
  {
    if ps != [] {
      AddValid(r, ps[0]);
      AddAllValid(Add(r, ps[0]), ps[1..]);
    }
  }

  /** Once a base slot is fixed, no later point moves it: distances are always
      measured from the first recorded point. */
  lemma {:induction false} AddAllKeepsBase(r: Retention, ps: seq<Point>)
    requires r.baseSlot != 0
    ensures AddAll(r, ps).baseSlot == r.baseSlot
    decreases |ps|
  {
    if ps != [] {
      AddAllKeepsBase(Add(r, ps[0]), ps[1..]);
    }
  }

  /** Starting from an empty cursor, the base is the slot of the first point
      fed (when it is non-zero). */
  lemma FirstPointFixesBase(ps: seq<Point>)
    requires ps != [] && ps[0].slot != 0
    ensures AddAll(Retention(0, []), ps).baseSlot == ps[0].slot
  {
    AddAllKeepsBase(Add(Retention(0, []), ps[0]), ps[1..]);
  }

  ghost predicate NewestFirst(points: seq<Point>) {
    forall i, j | 0 <= i < j < |points| :: points[i].slot >= points[j].slot
  }

  ghost predicate NonDecreasing(ps: seq<Point>) {
    forall i, j | 0 <= i < j < |ps| :: ps[i].slot <= ps[j].slot
  }

  ghost predicate SlotsAtMost(points: seq<Point>, slot: U64) {
    forall i | 0 <= i < |points| :: points[i].slot <= slot
  }

  lemma AddNewestFirst(r: Retention, p: Point)
    requires NewestFirst(r.points) && SlotsAtMost(r.points, p.slot)
    ensures NewestFirst(Add(r, p).points) && SlotsAtMost(Add(r, p).points, p.slot)
  {
    var q := Add(r, p).points;
    if r.baseSlot != 0 && ShouldStore(p.slot, r.baseSlot) {
      assert forall i | 1 <= i < |q| :: q[i] == r.points[i - 1];
    }
  }

  /** Points fed in non-decreasing slot order (forward progress, no rollback)
      keep the list newest first. Rollbacks can break this: the source does
      not prune or reorder on a rollback. */
  lemma {:induction false} AddAllNewestFirst(r: Retention, ps: seq<Point>)
    requires NewestFirst(r.points) && NonDecreasing(ps)
    requires ps != [] ==> SlotsAtMost(r.points, ps[0].slot)
    ensures NewestFirst(AddAll(r, ps).points)
    decreases |ps|
  {
    if ps != [] {
      AddNewestFirst(r, ps[0]);
      if |ps| > 1 {
        assert ps[0].slot <= ps[1].slot;
      }
      AddAllNewestFirst(Add(r, ps[0]), ps[1..]);
    }
  }

  /** The record `saveCursorState` writes for a point. */
  function ToRecord(p: Point): (rec: CursorPoint)
    ensures rec.slot == p.slot && Hex.Decode(rec.hash) == Some(p.hash)
    ensures forall k | 0 <= k < |rec.hash| :: Hex.IsLowerHexDigit(rec.hash[k])
  {
    Hex.DecodeEncode(p.hash);
    CursorPoint(p.slot, Hex.Encode(p.hash))
  }

  /** The records of a list of points: one per point, in the same order. */
  function ToRecords(points: seq<Point>): (records: seq<CursorPoint>)
    ensures |records| == |points|
    ensures forall i | 0 <= i < |points| ::
      records[i].slot == points[i].slot && Hex.Decode(records[i].hash) == Some(points[i].hash)
    ensures forall i | 0 <= i < |points| :: forall k | 0 <= k < |records[i].hash| ::
      Hex.IsLowerHexDigit(records[i].hash[k])
  {
    seq(|points|, i requires 0 <= i < |points| => ToRecord(points[i]))
  }

  /** The points `getStartPoints` rebuilds from cursor-file records, in file
      order, skipping every record whose hash is not valid hex. */
  function FromRecords(records: seq<CursorPoint>): (points: seq<Point>)
    ensures |points| <= |records|
    ensures (forall k | 0 <= k < |records| :: Hex.Decode(records[k].hash).Some?) ==> |points| == |records|
    decreases |records|
  {
    if records == [] then []
    else
      var last := records[|records| - 1];
      FromRecords(records[..|records| - 1]) +
        match Hex.Decode(last.hash)
        case Some(h) => [Point(last.slot, h)]
        case None => []
  }

  /** A single record gives its point when its hash is valid hex, and
      nothing otherwise. */
  lemma FromRecordsOne(rec: CursorPoint)
    ensures FromRecords([rec]) ==
      if Hex.Decode(rec.hash).Some? then [Point(rec.slot, Hex.Decode(rec.hash).value)] else []
  {
    assert [rec][..0] == [];
  }

  /** Loading works record by record: the points of two stretches of the
      file are the points of the first followed by those of the second, so
      bad records are skipped and good ones kept in file order. */
  lemma {:induction false} FromRecordsAppend(a: seq<CursorPoint>, b: seq<CursorPoint>)
    ensures FromRecords(a + b) == FromRecords(a) + FromRecords(b)
    decreases |b|
  {
    if b == [] {
      assert a + b == a;
    } else {
      var n := |b|;
      assert (a + b)[..|a + b| - 1] == a + b[..n - 1];
      assert b[..n - 1] == b[..|b| - 1];
      FromRecordsAppend(a, b[..n - 1]);
    }
  }

  /** Save then load is the identity: slots, hashes and order survive. */
  lemma {:induction false} FromToRecords(points: seq<Point>)
    ensures FromRecords(ToRecords(points)) == points
    decreases |points|
  {
    if points != [] {
      var n := |points|;
      assert ToRecords(points)[..n - 1] == ToRecords(points[..n - 1]);
      FromToRecords(points[..n - 1]);
      Hex.DecodeEncode(points[n - 1].hash);
      assert points[..n - 1] + [points[n - 1]] == points;
    }
  }
}
