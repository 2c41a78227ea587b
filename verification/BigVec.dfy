/** A vector of fixed-size records kept in a byte buffer behind a four-byte length. */
module BigVecs {
  import opened Base
  import opened Seqs
  import opened Bytes

  const PREFIX: nat := HALF

  // ---------------------------------------------------------------------------------------
  // Records and bytes
  // ---------------------------------------------------------------------------------------

  ghost predicate Uniform(records: seq<seq<byte>>, size: nat) {
    forall i :: 0 <= i < |records| ==> |records[i]| == size
  }

  /** Records laid one after the other. */
  function Cat(records: seq<seq<byte>>): seq<byte> {
    if records == [] then [] else records[0] + Cat(records[1..])
  }

  /** The first n records of a block of bytes. */
  function Chop(bytes: seq<byte>, size: nat, n: nat): (r: seq<seq<byte>>)
    requires n * size <= |bytes|
    ensures |r| == n && Uniform(r, size)
    decreases n
  {
    if n == 0 then []
    else
      Scale(1, n - 1, size);
      [bytes[..size]] + Chop(bytes[size..], size, n - 1)
  }

  lemma Scale(i: nat, k: nat, size: nat)
    ensures (i + k) * size == i * size + k * size
  {
  }

  lemma {:induction false} CatLength(records: seq<seq<byte>>, size: nat)
    requires Uniform(records, size)
    ensures |Cat(records)| == |records| * size
  {
    if records != [] {
      CatLength(records[1..], size);
      Scale(1, |records| - 1, size);
    }
  }

  lemma {:induction false} CatConcat(a: seq<seq<byte>>, b: seq<seq<byte>>)
    ensures Cat(a + b) == Cat(a) + Cat(b)
  {
    if a == [] {
      assert a + b == b;
    } else {
      assert (a + b)[1..] == a[1..] + b;
      CatConcat(a[1..], b);
    }
  }

  lemma {:induction false} ChopCat(records: seq<seq<byte>>, size: nat, tail: seq<byte>)
    requires Uniform(records, size)
    ensures |records| * size <= |Cat(records) + tail|
    ensures Chop(Cat(records) + tail, size, |records|) == records
  {
    CatLength(records, size);
    if records != [] {
      var bytes := Cat(records) + tail;
      assert bytes[size..] == Cat(records[1..]) + tail;
      assert bytes[..size] == records[0];
      ChopCat(records[1..], size, tail);
      assert [records[0]] + records[1..] == records;
    }
  }

  lemma {:induction false} CatChop(bytes: seq<byte>, size: nat, n: nat)
    requires n * size <= |bytes|
    ensures Cat(Chop(bytes, size, n)) == bytes[..n * size]
    decreases n
  {
    if n > 0 {
      Scale(1, n - 1, size);
      var rest := (n - 1) * size;
      CatChop(bytes[size..], size, n - 1);
      CatCons(bytes[..size], Chop(bytes[size..], size, n - 1));
      CutTwo(bytes, size, rest);
    }
  }

  lemma CatCons(first: seq<byte>, rest: seq<seq<byte>>)
    ensures Cat([first] + rest) == first + Cat(rest)
  {
    assert ([first] + rest)[1..] == rest;
  }

  lemma CutTwo(bytes: seq<byte>, a: nat, b: nat)
    requires a + b <= |bytes|
    ensures bytes[..a + b] == bytes[..a] + bytes[a..][..b]
  {
  }

  lemma CutThree(bytes: seq<byte>, a: nat, b: nat)
    requires a + b <= |bytes|
    ensures bytes == bytes[..a] + bytes[a..][..b] + bytes[a + b..]
  {
  }

  lemma Middle(a: seq<byte>, b: seq<byte>, m: seq<byte>, c: seq<byte>, d: seq<byte>)
    ensures (a + (b + m + c) + d)[|a| + |b|..|a| + |b| + |m|] == m
  {
    assert a + (b + m + c) + d == (a + b) + m + (c + d);
  }

  /** Record k of a run of records that starts behind `front`. */
  lemma RecordAt(front: seq<byte>, records: seq<seq<byte>>, tail: seq<byte>, size: nat, k: nat)
    requires Uniform(records, size) && k < |records|
    ensures var start := |front| + k * size;
            && start + size <= |front + Cat(records) + tail|
            && (front + Cat(records) + tail)[start..start + size] == records[k]
  {
    var a, b := records[..k], records[k + 1..];
    CatLength(a, size);
    CatSplit(records, k);
    Middle(front, Cat(a), records[k], Cat(b), tail);
  }

  lemma CatSplit(records: seq<seq<byte>>, k: nat)
    requires k < |records|
    ensures Cat(records) == Cat(records[..k]) + records[k] + Cat(records[k + 1..])
  {
    assert records == records[..k] + records[k..];
    CatConcat(records[..k], records[k..]);
    assert records[k..][1..] == records[k + 1..];
  }

  // ---------------------------------------------------------------------------------------
  // The vector a buffer holds
  // ---------------------------------------------------------------------------------------

  function Length(bytes: seq<byte>): nat
    requires |bytes| >= PREFIX
  {
    FromLE(bytes[..PREFIX])
  }

  /** The buffer holds its length and that many records. */
  predicate WellFormed(bytes: seq<byte>, size: nat) {
    |bytes| >= PREFIX && PREFIX + Length(bytes) * size <= |bytes|
  }

  function Records(bytes: seq<byte>, size: nat): (r: seq<seq<byte>>)
    requires WellFormed(bytes, size)
  {
    Chop(bytes[PREFIX..], size, Length(bytes))
  }

  /** The bytes behind the last record. */
  function Slack(bytes: seq<byte>, size: nat): seq<byte>
    requires WellFormed(bytes, size)
  {
    bytes[PREFIX + Length(bytes) * size..]
  }

  lemma LaidOut(bytes: seq<byte>, size: nat, n: nat)
    requires PREFIX + n * size <= |bytes|
    ensures bytes == bytes[..PREFIX] + Cat(Chop(bytes[PREFIX..], size, n)) + bytes[PREFIX + n * size..]
  {
    CatChop(bytes[PREFIX..], size, n);
    CutThree(bytes, PREFIX, n * size);
  }

  lemma Laid(bytes: seq<byte>, size: nat)
    requires WellFormed(bytes, size)
    ensures bytes == bytes[..PREFIX] + Cat(Records(bytes, size)) + Slack(bytes, size)
  {
    LaidOut(bytes, size, Length(bytes));
  }

  lemma Assoc(a: seq<byte>, b: seq<byte>, c: seq<byte>)
    ensures a + (b + c) == a + b + c
  {
  }

  lemma Split3(a: seq<byte>, b: seq<byte>, c: seq<byte>)
    ensures (a + b + c)[..|a|] == a && (a + b + c)[|a|..] == b + c && (a + b + c)[|a| + |b|..] == c
  {
  }

  /** A length, that many records and any slack make a buffer holding those records. */
  lemma Written(records: seq<seq<byte>>, slack: seq<byte>, size: nat)
    requires Uniform(records, size) && |records| <= U32_MAX
    ensures var bytes := ToLE(|records|, PREFIX) + (Cat(records) + slack);
            && WellFormed(bytes, size) && Records(bytes, size) == records && Slack(bytes, size) == slack
  {
    Assoc(ToLE(|records|, PREFIX), Cat(records), slack);
    Split3(ToLE(|records|, PREFIX), Cat(records), slack);
    U32Fits(|records|);
    FromToLE(|records|, PREFIX);
    CatLength(records, size);
    ChopCat(records, size, slack);
  }

  lemma WrittenLength(bytes: seq<byte>, n: nat)
    requires |bytes| >= PREFIX && bytes[..PREFIX] == ToLE(n, PREFIX)
    ensures Length(bytes) == n % (U32_MAX + 1)
  {
    FromToLEWraps(n, PREFIX);
    assert Pow256(PREFIX) == U32_MAX + 1;
  }

  lemma LengthKept(before: seq<byte>, after: seq<byte>, at: nat, element: seq<byte>)
    requires PREFIX <= at && at + |element| <= |before| && after == before[..at] + element + before[at + |element|..]
    ensures Length(after) == Length(before)
  {
    assert after[..PREFIX] == before[..PREFIX];
  }

  lemma LengthIsU32(bytes: seq<byte>)
    requires |bytes| >= PREFIX
    ensures Length(bytes) <= U32_MAX
  {
    FromLEFits(bytes[..PREFIX]);
    U32Fits(Length(bytes));
  }

  // ---------------------------------------------------------------------------------------
  // Compaction
  // ---------------------------------------------------------------------------------------

  /** The buffer after n bytes were moved from `src` to `dst`. */
  function Moved(bytes: seq<byte>, dst: nat, src: nat, n: nat): (r: seq<byte>)
    requires dst <= src && src + n <= |bytes|
  {
    bytes[..dst] + bytes[src..src + n] + bytes[dst + n..]
  }

  ghost predicate Shape(bytes: seq<byte>, head: seq<byte>, front: seq<byte>, gap: seq<byte>, rest: seq<byte>,
                        slack: seq<byte>) {
    bytes == Cat([head, front, gap, rest, slack])
  }

  lemma Five(a: seq<byte>, b: seq<byte>, c: seq<byte>, d: seq<byte>, e: seq<byte>)
    ensures Cat([a, b, c, d, e]) == a + b + c + d + e
  {
    var s := [a, b, c, d, e];
    assert s[1..] == [b, c, d, e];
    assert [b, c, d, e][1..] == [c, d, e];
    assert [c, d, e][1..] == [d, e];
    assert [d, e][1..] == [e];
    assert Cat([e]) == e;
    assert Cat([d, e]) == d + e;
    assert Cat([c, d, e]) == c + (d + e);
    assert Cat([b, c, d, e]) == b + (c + (d + e));
  }

  lemma SliceMiddle(x: seq<byte>, gap: seq<byte>, m: seq<byte>, y: seq<byte>)
    ensures (x + gap + m + y)[|x| + |gap|..|x| + |gap| + |m|] == m
  {
  }

  lemma SliceFront(x: seq<byte>, gap: seq<byte>, m: seq<byte>, y: seq<byte>)
    ensures (x + gap + m + y)[..|x|] == x
  {
  }

  lemma SliceBack(x: seq<byte>, gap: seq<byte>, m: seq<byte>, y: seq<byte>)
    ensures (x + gap + m + y)[|x| + |m|..] == (gap + m)[|m|..] + y
  {
    Assoc(x, gap, m);
    Split3(x, gap + m, y);
    assert (x + (gap + m) + y)[|x| + |m|..] == (gap + m + y)[|m|..];
  }

  /** Moving m down over the gap, between whatever lies before and behind. */
  lemma MoveOver(x: seq<byte>, gap: seq<byte>, m: seq<byte>, y: seq<byte>)
    ensures Moved(x + gap + m + y, |x|, |x| + |gap|, |m|) == x + m + ((gap + m)[|m|..] + y)
  {
    SliceFront(x, gap, m, y);
    SliceMiddle(x, gap, m, y);
    SliceBack(x, gap, m, y);
  }

  lemma MoveDown(head: seq<byte>, front: seq<byte>, gap: seq<byte>, m: seq<byte>, rest: seq<byte>, slack: seq<byte>)
    ensures var dst := |head| + |front|;
            Moved(head + front + gap + (m + rest) + slack, dst, dst + |gap|, |m|)
            == head + (front + m) + (gap + m)[|m|..] + rest + slack
  {
    var x, y, gap' := head + front, rest + slack, (gap + m)[|m|..];
    Assoc(x + gap, m, rest);
    Assoc(x + gap + m, rest, slack);
    MoveOver(x, gap, m, y);
    Assoc(head, front, m);
    Assoc(x + m, gap', y);
    Assoc(x + m + gap', rest, slack);
  }

  lemma WidenGap(bytes: seq<byte>, head: seq<byte>, front: seq<byte>, gap: seq<byte>, m: seq<byte>, rest: seq<byte>,
                 slack: seq<byte>)
    requires Shape(bytes, head, front, gap, m + rest, slack)
    ensures Shape(bytes, head, front, gap + m, rest, slack)
  {
    Five(head, front, gap, m + rest, slack);
    Five(head, front, gap + m, rest, slack);
  }

  lemma NoGap(bytes: seq<byte>, head: seq<byte>, front: seq<byte>, m: seq<byte>, rest: seq<byte>, slack: seq<byte>)
    requires Shape(bytes, head, front, [], m + rest, slack)
    ensures Shape(bytes, head, front + m, [], rest, slack)
  {
    Five(head, front, [], m + rest, slack);
    Five(head, front + m, [], rest, slack);
  }

  /** Moving m down over the gap; the gap reappears behind it, with some contents or other. */
  lemma MoveBlock(bytes: seq<byte>, head: seq<byte>, front: seq<byte>, gap: seq<byte>, m: seq<byte>, rest: seq<byte>,
                  slack: seq<byte>)
    requires Shape(bytes, head, front, gap, m + rest, slack)
    ensures |bytes| >= |head| + |front| + |gap| + |m|
    ensures Shape(Moved(bytes, |head| + |front|, |head| + |front| + |gap|, |m|),
                  head, front + m, (gap + m)[|m|..], rest, slack)
    ensures gap == [] ==> Shape(bytes, head, front + m, gap, rest, slack)
  {
    MoveDown(head, front, gap, m, rest, slack);
    Five(head, front, gap, m + rest, slack);
    Five(head, front + m, (gap + m)[|m|..], rest, slack);
    if gap == [] {
      NoGap(bytes, head, front, m, rest, slack);
    }
  }

  lemma {:induction false} FilterAll<T>(s: seq<T>, keep: T -> bool)
    requires forall i :: 0 <= i < |s| ==> keep(s[i])
    ensures Filter(s, keep) == s
  {
    if s != [] {
      FilterAll(s[1..], keep);
    }
  }

  /**
   * A buffer in the middle of a compaction: the length, the records kept before `from`, a gap, and
   * everything from record `from` on where it always was.
   */
  ghost predicate Compacting(bytes: seq<byte>, head: seq<byte>, records: seq<seq<byte>>, slack: seq<byte>,
                             keep: seq<byte> -> bool, from: nat, gap: seq<byte>) {
    && from <= |records|
    && Shape(bytes, head, Cat(Filter(records[..from], keep)), gap, Cat(records[from..]), slack)
  }

  /** Moving the pending records `from .. i`, all kept, down over the gap keeps the shape. */
  lemma MovePending(bytes: seq<byte>, head: seq<byte>, records: seq<seq<byte>>, slack: seq<byte>,
                    keep: seq<byte> -> bool, from: nat, gap: seq<byte>, i: nat)
    returns (gap': seq<byte>)
    requires Compacting(bytes, head, records, slack, keep, from, gap) && from <= i <= |records|
    requires forall k :: from <= k < i ==> keep(records[k])
    ensures var dst := |head| + |Cat(Filter(records[..from], keep))|;
            var n := |Cat(records[from..i])|;
            && dst + |gap| + n <= |bytes|
            && |gap'| == |gap|
            && Compacting(Moved(bytes, dst, dst + |gap|, n), head, records, slack, keep, i, gap')
    ensures gap == [] ==> Compacting(bytes, head, records, slack, keep, i, gap)
  {
    var front, pending, rest := Filter(records[..from], keep), records[from..i], records[i..];
    FilterPending(records, keep, from, i);
    assert records[from..] == pending + rest;
    gap' := MoveRecords(bytes, head, front, gap, pending, rest, slack);
  }

  lemma MoveRecords(bytes: seq<byte>, head: seq<byte>, front: seq<seq<byte>>, gap: seq<byte>, pending: seq<seq<byte>>,
                    rest: seq<seq<byte>>, slack: seq<byte>)
    returns (gap': seq<byte>)
    requires Shape(bytes, head, Cat(front), gap, Cat(pending + rest), slack)
    ensures |gap'| == |gap| && |bytes| >= |head| + |Cat(front)| + |gap| + |Cat(pending)|
    ensures Shape(Moved(bytes, |head| + |Cat(front)|, |head| + |Cat(front)| + |gap|, |Cat(pending)|),
                  head, Cat(front + pending), gap', Cat(rest), slack)
    ensures gap == [] ==> Shape(bytes, head, Cat(front + pending), gap, Cat(rest), slack)
  {
    CatConcat(front, pending);
    CatConcat(pending, rest);
    gap' := (gap + Cat(pending))[|Cat(pending)|..];
    MoveBlock(bytes, head, Cat(front), gap, Cat(pending), Cat(rest), slack);
  }

  lemma FilterPending(records: seq<seq<byte>>, keep: seq<byte> -> bool, from: nat, i: nat)
    requires from <= i <= |records|
    requires forall k :: from <= k < i ==> keep(records[k])
    ensures Filter(records[..i], keep) == Filter(records[..from], keep) + records[from..i]
  {
    assert records[..i] == records[..from] + records[from..i];
    FilterConcat(records[..from], records[from..i], keep);
    FilterAll(records[from..i], keep);
  }

  /** Record i joins the gap. */
  lemma DropRecord(bytes: seq<byte>, head: seq<byte>, records: seq<seq<byte>>, slack: seq<byte>,
                   keep: seq<byte> -> bool, i: nat, gap: seq<byte>)
    requires Compacting(bytes, head, records, slack, keep, i, gap) && i < |records| && !keep(records[i])
    ensures Compacting(bytes, head, records, slack, keep, i + 1, gap + records[i])
    ensures Filter(records[..i + 1], keep) == Filter(records[..i], keep)
  {
    assert records[..i + 1] == records[..i] + [records[i]];
    FilterConcat(records[..i], [records[i]], keep);
    assert Filter(records[..i + 1], keep) == Filter(records[..i], keep);
    assert records[i..][1..] == records[i + 1..];
    assert Cat(records[i..]) == records[i] + Cat(records[i + 1..]);
    WidenGap(bytes, head, Cat(Filter(records[..i], keep)), gap, records[i], Cat(records[i + 1..]), slack);
  }

  lemma UniformFilter(records: seq<seq<byte>>, keep: seq<byte> -> bool, size: nat)
    requires Uniform(records, size)
    ensures Uniform(Filter(records, keep), size)
  {
    FilterHasOnly(records, keep);
    forall i | 0 <= i < |Filter(records, keep)|
      ensures |Filter(records, keep)[i]| == size
    {
      assert Filter(records, keep)[i] in records;
    }
  }

  /** The offsets of a compaction with `removals` records dropped among the first `from`, about to move up to i. */
  lemma Offsets(records: seq<seq<byte>>, keep: seq<byte> -> bool, size: nat, from: nat, removals: nat, i: nat)
    requires Uniform(records, size) && removals <= from <= i <= |records|
    requires |Filter(records[..from], keep)| == from - removals
    ensures |Cat(Filter(records[..from], keep))| == (from - removals) * size
    ensures |Cat(records[from..i])| == (i - from) * size
    ensures i * size - removals * size - (from - removals) * size == (i - from) * size
    ensures (i - removals) * size == i * size - removals * size
    ensures (from - removals) * size + removals * size == from * size
  {
    UniformFilter(records[..from], keep, size);
    CatLength(Filter(records[..from], keep), size);
    CatLength(records[from..i], size);
    Scale(from - removals, removals, size);
    Scale(i - removals, removals, size);
    Scale(i - from, from, size);
  }

  /** A compaction that has looked at the first i records and dropped `removals` of them. */
  datatype Scan = Scan(head: seq<byte>, records: seq<seq<byte>>, slack: seq<byte>, size: nat, keep: seq<byte> -> bool,
                       i: nat, from: nat, removals: nat, gap: seq<byte>)
  {
    ghost predicate Valid(bytes: seq<byte>) {
      && |head| == PREFIX && Uniform(records, size)
      && removals <= from <= i <= |records|
      && Compacting(bytes, head, records, slack, keep, from, gap)
      && |gap| == removals * size
      && (forall k :: from <= k < i ==> keep(records[k]))
      && |Filter(records[..from], keep)| == from - removals
    }

    /** Where the records still to be moved go. */
    ghost function Dst(): nat
      requires removals <= from
    {
      PREFIX + (from - removals) * size
    }

    function At(): nat {
      PREFIX + i * size
    }
  }

  /** The scan of a well-formed buffer. */
  ghost function ScanOf(before: seq<byte>, size: nat, keep: seq<byte> -> bool): Scan
    requires WellFormed(before, size)
  {
    Scan(before[..PREFIX], Records(before, size), Slack(before, size), size, keep, 0, 0, 0, [])
  }

  lemma ScanStart(before: seq<byte>, size: nat, keep: seq<byte> -> bool)
    requires WellFormed(before, size)
    ensures ScanOf(before, size, keep).Valid(before)
  {
    var records, head, slack := Records(before, size), before[..PREFIX], Slack(before, size);
    Laid(before, size);
    assert records[0..] == records;
    assert Cat(Filter(records[..0], keep)) == [];
    Five(head, [], [], Cat(records), slack);
  }

  /** The record at the scan position is still the original one. */
  lemma ScanSees(t: Scan, bytes: seq<byte>)
    requires t.Valid(bytes) && t.i < |t.records|
    ensures t.At() + t.size <= |bytes| && bytes[t.At()..t.At() + t.size] == t.records[t.i]
  {
    var kept := Cat(Filter(t.records[..t.from], t.keep));
    Offsets(t.records, t.keep, t.size, t.from, t.removals, t.i);
    Scale(t.from, t.i - t.from, t.size);
    Five(t.head, kept, t.gap, Cat(t.records[t.from..]), t.slack);
    RecordAt(t.head + kept + t.gap, t.records[t.from..], t.slack, t.size, t.i - t.from);
  }

  lemma ScanPosition(t: Scan)
    requires t.size > 0 && t.i <= |t.records|
    ensures t.At() < PREFIX + |t.records| * t.size <==> t.i < |t.records|
    ensures t.At() <= PREFIX + |t.records| * t.size
  {
    Scale(t.i, |t.records| - t.i, t.size);
  }

  /** Keeping a record moves nothing. */
  lemma ScanKeep(t: Scan, bytes: seq<byte>)
    requires t.Valid(bytes) && t.i < |t.records| && t.keep(t.records[t.i])
    ensures t.(i := t.i + 1).Valid(bytes) && t.(i := t.i + 1).At() == t.At() + t.size
  {
    Scale(t.i, 1, t.size);
  }

  /** Before anything is dropped the pending records are in place already. */
  lemma ScanFlushNothing(t: Scan, bytes: seq<byte>)
    requires t.Valid(bytes) && t.removals == 0
    ensures Compacting(bytes, t.head, t.records, t.slack, t.keep, t.i, t.gap)
    ensures |Filter(t.records[..t.i], t.keep)| == t.i
  {
    FilterPending(t.records, t.keep, t.from, t.i);
    var _ := MovePending(bytes, t.head, t.records, t.slack, t.keep, t.from, t.gap, t.i);
  }

  /** Afterwards they have to be moved down over the gap. */
  lemma ScanFlush(t: Scan, bytes: seq<byte>, dst: nat, n: nat) returns (gap: seq<byte>)
    requires t.Valid(bytes) && dst == t.Dst() && dst + |t.gap| + n == t.At()
    ensures t.At() <= |bytes|
    ensures Compacting(Moved(bytes, dst, dst + |t.gap|, n), t.head, t.records, t.slack, t.keep, t.i, gap)
    ensures |gap| == |t.gap|
    ensures |Filter(t.records[..t.i], t.keep)| == t.i - t.removals
  {
    Offsets(t.records, t.keep, t.size, t.from, t.removals, t.i);
    FilterPending(t.records, t.keep, t.from, t.i);
    gap := MovePending(bytes, t.head, t.records, t.slack, t.keep, t.from, t.gap, t.i);
  }

  lemma ScanOffsets(t: Scan, bytes: seq<byte>)
    requires t.Valid(bytes)
    ensures t.Dst() + t.removals * t.size <= t.At()
  {
    Offsets(t.records, t.keep, t.size, t.from, t.removals, t.i);
  }

  /** Dropping a record: flush the pending ones, then let it join the gap. */
  lemma ScanDrop(t: Scan, after: seq<byte>, gap: seq<byte>) returns (t': Scan)
    requires t.removals <= t.from <= t.i < |t.records| && |t.head| == PREFIX && Uniform(t.records, t.size)
    requires Compacting(after, t.head, t.records, t.slack, t.keep, t.i, gap) && |gap| == t.removals * t.size
    requires |Filter(t.records[..t.i], t.keep)| == t.i - t.removals && !t.keep(t.records[t.i])
    ensures t' == t.(i := t.i + 1, from := t.i + 1, removals := t.removals + 1, gap := t'.gap)
    ensures t'.Valid(after) && t'.Dst() == t.At() - |gap| && t'.At() == t.At() + t.size
  {
    Scale(t.i, 1, t.size);
    Scale(t.i - t.removals, t.removals, t.size);
    DropRecord(after, t.head, t.records, t.slack, t.keep, t.i, gap);
    Scale(t.removals, 1, t.size);
    t' := t.(i := t.i + 1, from := t.i + 1, removals := t.removals + 1, gap := gap + t.records[t.i]);
  }

  lemma NothingPending(bytes: seq<byte>, head: seq<byte>, front: seq<byte>, gap: seq<byte>, slack: seq<byte>)
    requires Shape(bytes, head, front, gap, [], slack)
    ensures bytes == head + front + (gap + slack)
  {
    Five(head, front, gap, [], slack);
  }

  /** After the last flush only the new length has to be written. */
  lemma ScanEnd(after: seq<byte>, head: seq<byte>, records: seq<seq<byte>>, slack: seq<byte>, keep: seq<byte> -> bool,
                size: nat, gap: seq<byte>)
    requires Compacting(after, head, records, slack, keep, |records|, gap)
    requires |head| == PREFIX && Uniform(records, size) && |records| <= U32_MAX
    ensures |after| >= PREFIX
    ensures var kept := Filter(records, keep);
            var final := ToLE(|kept|, PREFIX) + after[PREFIX..];
            && WellFormed(final, size) && Records(final, size) == kept && Slack(final, size) == gap + slack
  {
    var kept := Filter(records, keep);
    assert records[..|records|] == records;
    assert Cat(records[|records|..]) == [];
    NothingPending(after, head, Cat(kept), gap, slack);
    Split3(head, Cat(kept), gap + slack);
    UniformFilter(records, keep, size);
    Written(kept, gap + slack, size);
  }

  /** From an index on, nothing has changed. */
  ghost predicate SameFrom(a: seq<byte>, b: seq<byte>, from: nat) {
    |a| == |b| && forall k :: from <= k < |a| ==> a[k] == b[k]
  }

  /** A buffer whose records and slack fill up what the old records took. */
  lemma SlackKept(before: seq<byte>, bytes: seq<byte>, size: nat, gap: seq<byte>)
    requires WellFormed(before, size) && WellFormed(bytes, size) && Slack(bytes, size) == gap + Slack(before, size)
    requires Length(bytes) * size + |gap| == Length(before) * size
    ensures SameFrom(before, bytes, PREFIX + Length(before) * size)
  {
    var end := PREFIX + Length(before) * size;
    assert bytes[end..] == Slack(bytes, size)[|gap|..] == before[end..];
    forall k | end <= k < |bytes|
      ensures bytes[k] == before[k]
    {
      assert bytes[k] == bytes[end..][k - end];
    }
  }

  // ---------------------------------------------------------------------------------------
  // Single records
  // ---------------------------------------------------------------------------------------

  lemma RecordBytes(bytes: seq<byte>, size: nat, i: nat)
    requires WellFormed(bytes, size) && i < Length(bytes)
    ensures PREFIX + i * size + size <= |bytes|
    ensures bytes[PREFIX + i * size..PREFIX + i * size + size] == Records(bytes, size)[i]
  {
    Laid(bytes, size);
    RecordAt(bytes[..PREFIX], Records(bytes, size), Slack(bytes, size), size, i);
  }

  lemma SliceOfRecords(bytes: seq<byte>, size: nat, skip: nat, len: nat)
    requires WellFormed(bytes, size) && skip + len <= Length(bytes)
    ensures var start := PREFIX + skip * size;
            && start + len * size <= |bytes|
            && Chop(bytes[start..start + len * size], size, len) == Records(bytes, size)[skip..skip + len]
  {
    var records := Records(bytes, size);
    var a, m, b := records[..skip], records[skip..skip + len], records[skip + len..];
    Laid(bytes, size);
    assert records == a + m + b;
    CatConcat(a + m, b);
    CatConcat(a, m);
    CatLength(a, size);
    CatLength(m, size);
    Middle(bytes[..PREFIX], Cat(a), Cat(m), Cat(b), Slack(bytes, size));
    ChopCat(m, size, []);
    assert Cat(m) + [] == Cat(m);
  }

  lemma AppendBytes(prefix: seq<byte>, body: seq<byte>, tail: seq<byte>, element: seq<byte>)
    requires |element| <= |tail|
    ensures var longer, at := prefix + (body + tail), |prefix| + |body|;
            longer[..at] + element + longer[at + |element|..] == prefix + ((body + element) + tail[|element|..])
  {
    var longer, at := prefix + (body + tail), |prefix| + |body|;
    assert longer[..at] == prefix + body;
    assert longer[at + |element|..] == tail[|element|..];
    Assoc(prefix, body, element);
    Assoc(prefix, body + element, tail[|element|..]);
  }

  /** One more record behind the old ones, and one more in the length. */
  lemma Pushed(before: seq<byte>, after: seq<byte>, size: nat, element: seq<byte>)
    requires WellFormed(before, size) && |element| == size && Length(before) < U32_MAX
    requires var end := PREFIX + Length(before) * size;
             var longer := ToLE(Length(before) + 1, PREFIX) + before[PREFIX..];
             && end + size <= |before|
             && after == longer[..end] + element + longer[end + size..]
    ensures WellFormed(after, size) && Records(after, size) == Records(before, size) + [element]
    ensures Slack(after, size) == before[PREFIX + Length(before) * size + size..]
  {
    var records, slack := Records(before, size), Slack(before, size);
    Laid(before, size);
    Split3(before[..PREFIX], Cat(records), slack);
    CatLength(records, size);
    AppendBytes(ToLE(|records| + 1, PREFIX), Cat(records), slack, element);
    CatConcat(records, [element]);
    assert Cat([element]) == element;
    Written(records + [element], slack[size..], size);
  }

  lemma Overwritten(before: seq<byte>, after: seq<byte>, size: nat, i: nat, element: seq<byte>)
    requires WellFormed(before, size) && |element| == size && i < Length(before)
    requires var at := PREFIX + i * size;
             && at + size <= |before|
             && after == before[..at] + element + before[at + size..]
    ensures WellFormed(after, size) && Records(after, size) == Records(before, size)[i := element]
    ensures Slack(after, size) == Slack(before, size)
  {
    var records, head, slack := Records(before, size), before[..PREFIX], Slack(before, size);
    var a, b := records[..i], records[i + 1..];
    Laid(before, size);
    CatSplit(records, i);
    CatLength(a, size);
    Replaced(head, Cat(a), records[i], Cat(b), slack, element);
    var updated := records[i := element];
    assert updated[..i] == a && updated[i + 1..] == b;
    CatSplit(updated, i);
    Assoc(head, Cat(updated), slack);
    ToFromLE(head);
    LengthIsU32(before);
    Written(updated, slack, size);
  }

  lemma Replaced(a: seq<byte>, b: seq<byte>, m: seq<byte>, c: seq<byte>, d: seq<byte>, m': seq<byte>)
    requires |m| == |m'|
    ensures var s := a + (b + m + c) + d;
            s[..|a| + |b|] + m' + s[|a| + |b| + |m|..] == a + (b + m' + c) + d
  {
    assert a + (b + m + c) + d == (a + b) + m + (c + d);
    assert a + (b + m' + c) + d == (a + b) + m' + (c + d);
  }

  class BigVec {
    const data: array<byte>

    constructor (buffer: array<byte>)
      ensures data == buffer
    {
      data := buffer;
    }

    ghost predicate Valid(size: nat)
      reads data
    {
      size > 0 && WellFormed(data[..], size)
    }

    function Len(): (n: nat)
      requires data.Length >= PREFIX
      reads data
      ensures n == Length(data[..])
    {
      assert data[..][..PREFIX] == data[..PREFIX];
      FromLE(data[..PREFIX])
    }

    method Memmove(dst: nat, src: nat, n: nat)
      requires dst <= src && src + n <= data.Length
      modifies data
      ensures data[..] == Moved(old(data[..]), dst, src, n)
    {
      Store(dst, data[src..src + n]);
    }

    method WriteLen(n: nat)
      requires data.Length >= PREFIX
      modifies data
      ensures data[..] == ToLE(n, PREFIX) + old(data[PREFIX..])
    {
      var bytes := ToLE(n, PREFIX);
      forall k | 0 <= k < PREFIX {
        data[k] := bytes[k];
      }
    }

    method Store(at: nat, element: seq<byte>)
      requires at + |element| <= data.Length
      modifies data
      ensures data[..] == old(data[..])[..at] + element + old(data[..])[at + |element|..]
    {
      forall k | 0 <= k < |element| {
        data[at + k] := element[k];
      }
    }

    /** Move the records kept since the last removal down over the gap. */
    method Flush(dst: nat, start: nat, removals: nat, size: nat, ghost t: Scan) returns (ghost gap: seq<byte>)
      requires t.Valid(data[..]) && t.size == size && t.removals == removals && start == t.At()
      requires removals > 0 ==> dst == t.Dst()
      modifies data
      ensures Compacting(data[..], t.head, t.records, t.slack, t.keep, t.i, gap) && |gap| == removals * size
      ensures |Filter(t.records[..t.i], t.keep)| == t.i - removals
    {
      ScanOffsets(t, data[..]);
      if removals > 0 {
        var gapBytes := removals * size;
        gap := ScanFlush(t, data[..], dst, start - gapBytes - dst);
        Memmove(dst, dst + gapBytes, start - gapBytes - dst);
      } else {
        ScanFlushNothing(t, data[..]);
        gap := t.gap;
      }
    }

    /** The record at the scan position. */
    method RecordSeen(start: nat, size: nat, ghost t: Scan) returns (slice: seq<byte>)
      requires t.Valid(data[..]) && t.size == size && start == t.At() && t.i < |t.records|
      ensures slice == t.records[t.i] && t.records[..t.i + 1] == t.records[..t.i] + [slice]
    {
      ScanSees(t, data[..]);
      slice := data[start..start + size];
      assert slice == data[..][start..start + size];
    }

    /** Drop the record at the scan position: move the pending ones, then let it join the gap. */
    method DropAt(dst: nat, start: nat, removals: nat, size: nat, ghost t: Scan) returns (dst': nat, ghost t': Scan)
      requires t.Valid(data[..]) && t.size == size && t.removals == removals && start == t.At()
      requires removals > 0 ==> dst == t.Dst()
      requires t.i < |t.records| && !t.keep(t.records[t.i])
      modifies data
      ensures t' == t.(i := t.i + 1, from := t.i + 1, removals := removals + 1, gap := t'.gap)
      ensures t'.Valid(data[..]) && t'.Dst() == dst' && t'.At() == start + size
    {
      ghost var gap := Flush(dst, start, removals, size, t);
      t' := ScanDrop(t, data[..], gap);
      dst' := start - removals * size;
    }

    /** The scan of `Retain`: everything but writing the new length. */
    method Compact(size: nat, keep: seq<byte> -> bool)
      returns (vecLen: nat, ghost seen: seq<seq<byte>>, ghost gap: seq<byte>)
      requires Valid(size)
      modifies data
      ensures seen == old(Records(data[..], size))
      ensures vecLen == |Filter(old(Records(data[..], size)), keep)|
      ensures vecLen * size + |gap| == old(Length(data[..])) * size
      ensures Compacting(data[..], old(data[..PREFIX]), old(Records(data[..], size)), old(Slack(data[..], size)), keep,
                         old(Length(data[..])), gap)
    {
      ghost var t0 := ScanOf(data[..], size, keep);
      ghost var t := t0;
      ScanStart(data[..], size, keep);
      vecLen := Len();
      var removals: nat, dst: nat := 0, 0;
      var end := PREFIX + vecLen * size;
      var start := PREFIX;
      seen := [];
      while start < end
        invariant t.Valid(data[..]) && t == t0.(i := t.i, from := t.from, removals := removals, gap := t.gap)
        invariant vecLen == |t.records| - removals
        invariant start == t.At()
        invariant removals > 0 ==> dst == t.Dst()
        invariant seen == t.records[..t.i]
        decreases end - start
      {
        ScanPosition(t);
        var slice := RecordSeen(start, size, t);
        seen := seen + [slice];
        if !keep(slice) {
          dst, t := DropAt(dst, start, removals, size, t);
          removals := removals + 1;
          vecLen := vecLen - 1;
        } else {
          ScanKeep(t, data[..]);
          t := t.(i := t.i + 1);
        }
        start := start + size;
      }
      ScanPosition(t);
      gap := Flush(dst, end, removals, size, t);
      assert t.records[..t.i] == t.records;
      Scale(vecLen, removals, size);
    }

    /**
     * Drop the records that fail `keep`, in place. `seen` are the records the predicate was asked
     * about, in order.
     */
    method Retain(size: nat, keep: seq<byte> -> bool) returns (ghost seen: seq<seq<byte>>)
      requires Valid(size)
      modifies data
      ensures Valid(size)
      ensures Records(data[..], size) == Filter(old(Records(data[..], size)), keep)
      ensures Len() == |Filter(old(Records(data[..], size)), keep)|
      ensures seen == old(Records(data[..], size))
      ensures SameFrom(old(data[..]), data[..], PREFIX + old(Len()) * size)
    {
      ghost var before, gap := data[..], [];
      var vecLen: nat;
      vecLen, seen, gap := Compact(size, keep);
      LengthIsU32(before);
      ScanEnd(data[..], before[..PREFIX], seen, Slack(before, size), keep, size, gap);
      WriteLen(vecLen);
      SlackKept(before, data[..], size, gap);
    }

    /** Write the record behind the last one of a buffer whose length already counts it. */
    method StoreLast(size: nat, n: nat, element: seq<byte>, ghost before: seq<byte>)
      requires size > 0 && |element| == size && |before| == data.Length >= PREFIX + n * size + size
      requires n == Length(before)
      requires data[..] == ToLE(n + 1, PREFIX) + before[PREFIX..]
      modifies data
      ensures Length(data[..]) == old(Length(data[..]))
      ensures n < U32_MAX ==>
                && WellFormed(data[..], size) && Records(data[..], size) == Records(before, size) + [element]
                && Slack(data[..], size) == before[PREFIX + n * size + size..]
    {
      ghost var longer := data[..];
      Store(PREFIX + n * size, element);
      LengthKept(longer, data[..], PREFIX + n * size, element);
      if n < U32_MAX {
        Pushed(before, data[..], size, element);
      }
    }

    /** Append a record. The length is written before the room is checked. */
    method Push(size: nat, element: seq<byte>) returns (r: Outcome)
      requires size > 0 && data.Length >= PREFIX && |element| == size
      modifies data
      ensures r == Check(old(PREFIX + Len() * size + size) <= data.Length, AccountDataTooSmall)
      ensures r.Fail? ==> data[..] == ToLE(old(Len()) + 1, PREFIX) + old(data[PREFIX..])
      ensures Len() == (old(Len()) + 1) % (U32_MAX + 1)
      ensures r.Pass? && old(Len()) < U32_MAX ==>
                && Valid(size) && Records(data[..], size) == old(Records(data[..], size)) + [element]
                && Slack(data[..], size) == old(data[PREFIX + Len() * size + size..])
    {
      var n := Len();
      WriteLen(n + 1);
      WrittenLength(data[..], n + 1);
      if data.Length < PREFIX + n * size + size {
        return Fail(AccountDataTooSmall);
      }
      StoreLast(size, n, element, old(data[..]));
      return Pass;
    }

    /** Where the first record that satisfies `wanted` starts. */
    method Find(size: nat, wanted: seq<byte> -> bool) returns (r: Option<nat>)
      requires Valid(size)
      ensures r == match FirstMatch(Records(data[..], size), wanted)
                   case None => None
                   case Some(i) => Some(PREFIX + i * size)
      ensures r.Some? ==> r.value + size <= data.Length
    {
      var len := Len();
      var current, at := 0, PREFIX;
      while current != len
        invariant 0 <= current <= len && at == PREFIX + current * size
        invariant forall k :: 0 <= k < current ==> !wanted(Records(data[..], size)[k])
      {
        RecordBytes(data[..], size, current);
        var slice := data[at..at + size];
        assert slice == data[..][at..at + size];
        if wanted(slice) {
          return Some(at);
        }
        Scale(current, 1, size);
        at := at + size;
        current := current + 1;
      }
      return None;
    }

    /** Write through the reference that a search returned. */
    method Overwrite(size: nat, at: nat, element: seq<byte>, ghost i: nat)
      requires Valid(size) && |element| == size && i < Len() && at == PREFIX + i * size
      modifies data
      ensures Valid(size)
      ensures Records(data[..], size) == old(Records(data[..], size))[i := element]
      ensures data[PREFIX + Len() * size..] == old(data[PREFIX + Len() * size..])
    {
      RecordBytes(data[..], size, i);
      Store(at, element);
      Overwritten(old(data[..]), data[..], size, i, element);
    }

    /** The records `skip .. skip + len`. */
    method DeserializeSlice(size: nat, skip: nat, len: nat) returns (r: Result<seq<seq<byte>>>)
      requires Valid(size)
      ensures r == if skip + len <= Len() then Ok(Records(data[..], size)[skip..skip + len])
                   else Err(AccountDataTooSmall)
    {
      if skip + len > Len() {
        return Err(AccountDataTooSmall);
      }
      var start := PREFIX + skip * size;
      var end := start + len * size;
      SliceOfRecords(data[..], size, skip, len);
      assert data[start..end] == data[..][start..end];
      return Ok(Chop(data[start..end], size, len));
    }
  }
}
