/**
  The rotating log file of `sentinel/telemetry.py` (`FileSink`): backups 1 (newest) to `backup_count`
  (oldest) beside the current file. Any rename, deletion or write may fail part way.
 */
module RotatingLog {
  import opened Prelude

  type Backups = map<int, string>

  function Slot(b: Backups, k: int): string {
    if k in b then b[k] else ""
  }

  /** The contents of backups `k`, `k - 1`, ..., 1 in the order in which they were written. */
  function Older(b: Backups, k: int): string {
    if k <= 0 then "" else Slot(b, k) + Older(b, k - 1)
  }

  function Joined(lines: seq<string>): string {
    if lines == [] then "" else Joined(lines[..|lines| - 1]) + lines[|lines| - 1] + "\n"
  }

  predicate IsSuffix(s: string, whole: string) {
    |s| <= |whole| && whole[|whole| - |s|..] == s
  }

  /** Backups are numbered 1 to `n` without a gap. */
  ghost predicate Numbered(b: Backups, n: int) {
    forall k :: k in b <==> 1 <= k <= n
  }

  /** The file ends with its last write; what came before that fitted below the limit, if there was anything. */
  predicate BelowLimit(file: string, maxBytes: int, last: string) {
    IsSuffix(last, file) && (|file| - |last| < maxBytes || file == last)
  }

  /** Moving a backup up into a free slot keeps the text. */
  lemma {:induction false} MoveKeepsOlder(b: Backups, i: int, k: int)
    requires i in b && i + 1 !in b && 1 <= i
    ensures var c := (b - {i})[i + 1 := b[i]];
      Older(c, k) == if k == i then Older(b, i - 1) else Older(b, k)
    decreases k
  {
    var c := (b - {i})[i + 1 := b[i]];
    if k > 0 {
      MoveKeepsOlder(b, i, k - 1);
      if k == i + 1 {
        assert Slot(b, k) == "" && Slot(c, k) == b[i] == Slot(b, i);
        assert Older(b, i) == Slot(b, i) + Older(b, i - 1);
      } else if k == i {
        assert Slot(c, k) == "" && Older(c, k) == Older(c, k - 1);
      } else {
        assert Slot(c, k) == Slot(b, k);
      }
    }
  }

  lemma {:induction false} HigherSlotsDoNotMatter(b: Backups, i: int, k: int)
    requires k < i
    ensures Older(b - {i}, k) == Older(b, k)
    decreases k
  {
    if k > 0 {
      HigherSlotsDoNotMatter(b, i, k - 1);
      assert Slot(b - {i}, k) == Slot(b, k);
    }
  }

  /** Slot 1 comes last in the text. */
  lemma {:induction false} FillFirstSlot(b: Backups, text: string, k: int)
    requires 1 !in b && k >= 1
    ensures Older(b[1 := text], k) == Older(b, k) + text
    decreases k
  {
    var c := b[1 := text];
    if k == 1 {
      assert Older(c, 0) == "" && Older(b, 0) == "";
    } else {
      FillFirstSlot(b, text, k - 1);
      assert Slot(c, k) == Slot(b, k);
    }
  }

  // ----- making room in slot 1 --------------------------------------------------------------------

  predicate Within(b: Backups, limit: int) {
    forall k :: k in b ==> 1 <= k <= limit
  }

  /** One turn of the loop: backup `i`, if there is one, replaces backup `i + 1`. */
  function MoveUp(b: Backups, i: int): Backups {
    if i in b then (b - {i})[i + 1 := b[i]] else b
  }

  /** The backups when turn `i` comes next, turns `limit - 1` down to `i + 1` being done. */
  function MakeRoom(b: Backups, limit: int, i: int): Backups
    requires i < limit
    decreases limit - i
  {
    if i == limit - 1 then b else MoveUp(MakeRoom(b, limit, i + 1), i + 1)
  }

  /** The text after the loop: the oldest backup goes only when another one takes its place. */
  function Shifted(b: Backups, limit: int): string {
    if limit - 1 in b then Older(b, limit - 1) else Older(b, limit)
  }

  function At(b: Backups, k: int): Option<string> {
    if k in b then Some(b[k]) else None
  }

  /** What slot `k` holds then: slots up to `i` as before, slot `i + 1` free, the slots above moved up by one. */
  function Moved(b: Backups, limit: int, i: int, k: int): Option<string> {
    if i == limit - 1 || k <= i || k > limit then At(b, k)
    else if k == i + 1 then None
    else if k == limit && k - 1 !in b then At(b, k)
    else At(b, k - 1)
  }

  lemma MoveUpAt(q: Backups, i: int, k: int)
    ensures At(MoveUp(q, i), k) ==
      if i !in q then At(q, k) else if k == i then None else if k == i + 1 then At(q, i) else At(q, k)
  {
  }

  lemma {:induction false} MakeRoomAt(b: Backups, limit: int, i: int, k: int)
    requires Within(b, limit) && 0 <= i < limit
    ensures At(MakeRoom(b, limit, i), k) == Moved(b, limit, i, k)
    decreases limit - i
  {
    if i < limit - 1 {
      MakeRoomAt(b, limit, i + 1, k);
      MakeRoomAt(b, limit, i + 1, i + 1);
      MoveUpAt(MakeRoom(b, limit, i + 1), i + 1, k);
    }
  }

  ghost predicate HoldsMoved(b: Backups, limit: int, i: int, r: Backups) {
    forall k :: At(r, k) == Moved(b, limit, i, k)
  }

  lemma MovedLow(b: Backups, limit: int, i: int, r: Backups)
    requires 0 <= i < limit && HoldsMoved(b, limit, i, r)
    ensures forall k :: k <= i ==> (k in r <==> k in b) && (k in b ==> r[k] == b[k])
    ensures i < limit - 1 ==> i + 1 !in r
  {
    forall k | k <= i ensures (k in r <==> k in b) && (k in b ==> r[k] == b[k]) {
      assert At(r, k) == At(b, k);
    }
    assert i < limit - 1 ==> At(r, i + 1) == None;
  }

  lemma MovedHigh(b: Backups, limit: int, i: int, r: Backups)
    requires Within(b, limit) && 0 <= i < limit && HoldsMoved(b, limit, i, r)
    ensures forall k :: i + 1 < k <= limit ==> (k in r <==> k - 1 in b || (k == limit && k in b))
    ensures forall k :: i + 1 < k <= limit && k in r ==> r[k] == if k - 1 in b then b[k - 1] else b[k]
    ensures Within(r, limit)
  {
    forall k | i + 1 < k <= limit ensures k in r <==> k - 1 in b || (k == limit && k in b) {
      assert At(r, k) == Moved(b, limit, i, k);
    }
    forall k | i + 1 < k <= limit && k in r ensures r[k] == if k - 1 in b then b[k - 1] else b[k] {
      assert At(r, k) == Moved(b, limit, i, k);
    }
    forall k | k in r ensures 1 <= k <= limit {
      assert At(r, k) == Moved(b, limit, i, k);
    }
  }

  /** Slots up to `i` as before, slot `i + 1` free once a turn is done, the slots above moved up by one. */
  ghost predicate RoomMade(b: Backups, limit: int, i: int, r: Backups) {
    && (forall k :: k <= i ==> (k in r <==> k in b) && (k in b ==> r[k] == b[k]))
    && (i < limit - 1 ==> i + 1 !in r)
    && (forall k :: i + 1 < k <= limit ==> (k in r <==> k - 1 in b || (k == limit && k in b)))
    && (forall k :: i + 1 < k <= limit && k in r ==> r[k] == if k - 1 in b then b[k - 1] else b[k])
    && Within(r, limit)
  }

  lemma MovedMakesRoom(b: Backups, limit: int, i: int, r: Backups)
    requires Within(b, limit) && 0 <= i < limit && HoldsMoved(b, limit, i, r)
    ensures RoomMade(b, limit, i, r)
  {
    MovedLow(b, limit, i, r);
    MovedHigh(b, limit, i, r);
  }

  lemma MakeRoomShape(b: Backups, limit: int, i: int)
    requires Within(b, limit) && 0 <= i < limit
    ensures RoomMade(b, limit, i, MakeRoom(b, limit, i))
  {
    assert HoldsMoved(b, limit, i, MakeRoom(b, limit, i)) by {
      forall k ensures At(MakeRoom(b, limit, i), k) == Moved(b, limit, i, k) {
        MakeRoomAt(b, limit, i, k);
      }
    }
    MovedMakesRoom(b, limit, i, MakeRoom(b, limit, i));
  }

  lemma FreeSlotFirst(b: Backups, i: int)
    requires i in b
    ensures var c := b - {i + 1}; (c - {i})[i + 1 := b[i]] == MoveUp(b, i)
  {
  }

  lemma MoveUpText(b: Backups, limit: int, i: int)
    requires 1 <= i < limit && (i + 1 == limit || i + 1 !in b)
    ensures Older(MoveUp(b, i), limit) == if i in b && i + 1 in b then Older(b, limit - 1) else Older(b, limit)
  {
    if i in b {
      if i + 1 in b {
        HigherSlotsDoNotMatter(b, limit, limit - 1);
        MoveKeepsOlder(b - {limit}, i, limit);
        assert MoveUp(b, i) == MoveUp(b - {limit}, i);
      } else {
        MoveKeepsOlder(b, i, limit);
      }
    }
  }

  lemma {:induction false} MakeRoomText(b: Backups, limit: int, i: int)
    requires Within(b, limit) && 0 <= i < limit
    ensures Older(MakeRoom(b, limit, i), limit) == if i < limit - 1 then Shifted(b, limit) else Older(b, limit)
    decreases limit - i
  {
    if i == limit - 2 {
      FirstTurnText(b, limit);
    } else if i < limit - 2 {
      var r := MakeRoom(b, limit, i + 1);
      MakeRoomText(b, limit, i + 1);
      assert i + 2 !in r by { MakeRoomShape(b, limit, i + 1); }
      MoveUpText(r, limit, i + 1);
    }
  }

  /** The first turn moves the oldest backup but one into the last slot. */
  lemma FirstTurnText(b: Backups, limit: int)
    requires limit >= 2
    ensures Older(MoveUp(b, limit - 1), limit) == Shifted(b, limit)
  {
    MoveUpText(b, limit, limit - 1);
    assert limit !in b ==> Slot(b, limit) == "" && Older(b, limit) == Older(b, limit - 1);
  }

  /** `text` is what the backups held, or that without the oldest slot. */
  predicate AtMostOldestGone(b: Backups, limit: int, text: string) {
    text == Older(b, limit) || text == Older(b, limit - 1)
  }

  lemma WithoutOldest(b: Backups, limit: int)
    requires limit >= 1
    ensures Older(b - {limit}, limit) == Older(b, limit - 1)
  {
    HigherSlotsDoNotMatter(b, limit, limit - 1);
    assert Slot(b - {limit}, limit) == "";
  }

  /** The text left where turn `i` is interrupted, or the step after the last turn when `i` is 1. */
  lemma InterruptedText(b: Backups, limit: int, i: int)
    requires Within(b, limit) && 1 <= i < limit
    ensures AtMostOldestGone(b, limit, Older(MakeRoom(b, limit, i), limit))
    ensures i + 1 in MakeRoom(b, limit, i) ==> AtMostOldestGone(b, limit, Older(MakeRoom(b, limit, i) - {i + 1}, limit))
  {
    MakeRoomText(b, limit, i);
    if i == limit - 1 {
      WithoutOldest(b, limit);
    } else {
      MakeRoomShape(b, limit, i);
    }
  }

  /** The backups after a complete rotation. */
  function Rotated(b: Backups, limit: int, current: string): Backups
    requires limit >= 1
  {
    (MakeRoom(b, limit, 0) - {1})[1 := current]
  }

  /** The oldest backup is in the way of another file. */
  predicate OldestInTheWay(b: Backups, limit: int) {
    limit in b && (limit == 1 || limit - 1 in b)
  }

  /** What a rotation keeps of the backups: all of it, unless the oldest is in the way. */
  function Kept(b: Backups, limit: int): string {
    if OldestInTheWay(b, limit) then Older(b, limit - 1) else Older(b, limit)
  }

  lemma RoomText(b: Backups, limit: int)
    requires limit >= 1 && Within(b, limit)
    ensures Older(MakeRoom(b, limit, 0) - {1}, limit) == Kept(b, limit)
    ensures AtMostOldestGone(b, limit, Older(MakeRoom(b, limit, 0), limit))
  {
    MakeRoomText(b, limit, 0);
    if limit == 1 {
      WithoutOldest(b, 1);
      if 1 !in b {
        assert b - {1} == b;
      }
    } else {
      MakeRoomShape(b, limit, 0);
      assert MakeRoom(b, limit, 0) - {1} == MakeRoom(b, limit, 0);
    }
  }

  /** A rotation appends the current file to the backups and drops the oldest only when it is in the way. */
  lemma RotatedText(b: Backups, limit: int, current: string)
    requires limit >= 1 && Within(b, limit)
    ensures Older(Rotated(b, limit, current), limit) == Kept(b, limit) + current
  {
    RoomText(b, limit);
    FillFirstSlot(MakeRoom(b, limit, 0) - {1}, current, limit);
  }

  /** A rotation leaves no gap in the numbering. */
  lemma RotatedNumbering(b: Backups, limit: int, current: string, n: int)
    requires limit >= 1 && Within(b, limit) && 0 <= n <= limit && Numbered(b, n)
    ensures Numbered(Rotated(b, limit, current), if n < limit then n + 1 else n)
  {
    MakeRoomShape(b, limit, 0);
    var r, room := Rotated(b, limit, current), MakeRoom(b, limit, 0);
    forall k ensures k in r <==> 1 <= k <= (if n < limit then n + 1 else n) {
      assert k != 1 ==> (k in r <==> k in room);
      assert k in room ==> 1 <= k <= limit;
      assert 1 < k <= limit ==> (k in room <==> k - 1 in b || (k == limit && k in b));
    }
  }

  ghost predicate NoGaps(b: Backups, limit: int) {
    exists n | 0 <= n <= limit :: Numbered(b, n)
  }

  lemma RotationKeepsNoGaps(b: Backups, limit: int, current: string)
    requires limit >= 1 && Within(b, limit)
    ensures NoGaps(b, limit) ==> NoGaps(Rotated(b, limit, current), limit)
  {
    if NoGaps(b, limit) {
      var n :| 0 <= n <= limit && Numbered(b, n);
      RotatedNumbering(b, limit, current, n);
    }
  }

  lemma SuffixOfSuffix(a: string, b: string, whole: string)
    requires IsSuffix(a + b, whole)
    ensures IsSuffix(b, whole)
  {
    assert (a + b)[|a|..] == b;
  }

  lemma SuffixExtends(s: string, whole: string, data: string)
    requires IsSuffix(s, whole)
    ensures IsSuffix(s + data, whole + data)
  {
  }

  lemma Reassociate(a: string, b: string, c: string)
    ensures a + (b + c) == (a + b) + c
  {
  }

  lemma ExtendedBelowLimit(file: string, data: string, maxBytes: int)
    requires file == "" || |file| < maxBytes
    ensures BelowLimit(file + data, maxBytes, data)
  {
    assert file == "" ==> file + data == data;
  }

  /** Dropping the oldest backup, or nothing, leaves a suffix. */
  lemma DroppedIsSuffix(b: Backups, limit: int, older: string, current: string, written: string)
    requires limit >= 1 && IsSuffix(Older(b, limit) + current, written)
    requires AtMostOldestGone(b, limit, older)
    ensures IsSuffix(older + current, written)
  {
    assert Older(b, limit) + current == Slot(b, limit) + (Older(b, limit - 1) + current);
    SuffixOfSuffix(Slot(b, limit), Older(b, limit - 1) + current, written);
  }

  // ----- rotations that a failing file operation stops --------------------------------------------

  /** A rotation stops in turn `i` (after the loop for 0), with or without the way of backup `i` cleared. */
  predicate StopPoint(b: Backups, limit: int, i: int, cleared: bool) {
    0 <= i < limit && (cleared ==> i + 1 in MakeRoom(b, limit, i))
  }

  function Stopped(b: Backups, limit: int, i: int, cleared: bool): Backups
    requires i < limit
  {
    if cleared then MakeRoom(b, limit, i) - {i + 1} else MakeRoom(b, limit, i)
  }

  /** Wherever a rotation is stopped, the backups hold the old text or that without the oldest file. */
  lemma StoppedText(b: Backups, limit: int, i: int, cleared: bool)
    requires Within(b, limit) && StopPoint(b, limit, i, cleared)
    ensures Within(Stopped(b, limit, i, cleared), limit)
    ensures AtMostOldestGone(b, limit, Older(Stopped(b, limit, i, cleared), limit))
  {
    MakeRoomShape(b, limit, i);
    if i == 0 {
      RoomText(b, limit);
    } else {
      InterruptedText(b, limit, i);
    }
  }

  /** A stopped rotation leaves no gap exactly when it had nothing to move yet: at the top turn, or below all backups. */
  lemma StoppedNoGapsIff(b: Backups, limit: int, n: int, i: int, cleared: bool)
    requires 0 <= n <= limit && Numbered(b, n) && StopPoint(b, limit, i, cleared)
    ensures NoGaps(Stopped(b, limit, i, cleared), limit) <==> n <= i || i == limit - 1
  {
    MakeRoomShape(b, limit, i);
    var r := Stopped(b, limit, i, cleared);
    if i == limit - 1 {
      assert Numbered(r, if cleared then n - 1 else n);
    } else {
      assert i + 1 !in MakeRoom(b, limit, i) && r == MakeRoom(b, limit, i);
      if n <= i {
        forall k ensures k in r <==> 1 <= k <= n {
          assert i + 1 < k <= limit ==> k - 1 !in b && k !in b;
        }
        assert Numbered(r, n);
      } else {
        assert (i + 2) - 1 in b && i + 2 in r;
      }
    }
  }

  /** Backups 1 to `n` are all there; there may be more, behind a gap. */
  predicate FilledTo(b: Backups, n: int) {
    forall k :: 1 <= k <= n ==> k in b
  }

  /** A complete rotation fills one slot more. */
  lemma RotationFills(b: Backups, limit: int, current: string, n: int)
    requires limit >= 1 && Within(b, limit) && 0 <= n <= limit && FilledTo(b, n)
    ensures Within(Rotated(b, limit, current), limit)
    ensures FilledTo(Rotated(b, limit, current), if n < limit then n + 1 else n)
  {
    MakeRoomShape(b, limit, 0);
    var r, room := Rotated(b, limit, current), MakeRoom(b, limit, 0);
    forall k | 1 <= k <= (if n < limit then n + 1 else n) ensures k in r {
      if k > 1 {
        assert k - 1 in b && k in room;
      }
    }
  }

  /** The backups after several complete rotations. */
  function RotatedAll(b: Backups, limit: int, files: seq<string>): Backups
    requires limit >= 1
    decreases |files|
  {
    if files == [] then b else RotatedAll(Rotated(b, limit, files[0]), limit, files[1..])
  }

  /** Whatever failures left behind, complete rotations close every gap: `limit` of them fill all slots. */
  lemma {:induction false} RotationsCloseGaps(b: Backups, limit: int, files: seq<string>, n: int)
    requires limit >= 1 && Within(b, limit) && 0 <= n <= limit && FilledTo(b, n) && n + |files| >= limit
    ensures Numbered(RotatedAll(b, limit, files), limit)
    decreases |files|
  {
    if files != [] {
      RotationFills(b, limit, files[0], n);
      RotationsCloseGaps(Rotated(b, limit, files[0]), limit, files[1..], if n < limit then n + 1 else n);
    }
  }

  // ----- the size of every file -------------------------------------------------------------------

  /** Every backup is below the limit but for its own last write, which `lasts` remembers. */
  ghost predicate AllBelow(b: Backups, lasts: Backups, maxBytes: int) {
    b.Keys == lasts.Keys && forall k :: k in b ==> BelowLimit(b[k], maxBytes, lasts[k])
  }

  lemma {:induction false} MakeRoomBelow(b: Backups, lasts: Backups, maxBytes: int, limit: int, i: int)
    requires AllBelow(b, lasts, maxBytes) && 0 <= i < limit
    ensures AllBelow(MakeRoom(b, limit, i), MakeRoom(lasts, limit, i), maxBytes)
    decreases limit - i
  {
    if i < limit - 1 {
      MakeRoomBelow(b, lasts, maxBytes, limit, i + 1);
      MoveUpBelow(MakeRoom(b, limit, i + 1), MakeRoom(lasts, limit, i + 1), maxBytes, i + 1);
    }
  }

  lemma MoveUpBelow(b: Backups, lasts: Backups, maxBytes: int, i: int)
    requires AllBelow(b, lasts, maxBytes)
    ensures AllBelow(MoveUp(b, i), MoveUp(lasts, i), maxBytes)
  {
  }

  lemma StoppedBelow(b: Backups, lasts: Backups, maxBytes: int, limit: int, i: int, cleared: bool)
    requires AllBelow(b, lasts, maxBytes) && 0 <= i < limit
    ensures AllBelow(Stopped(b, limit, i, cleared), Stopped(lasts, limit, i, cleared), maxBytes)
  {
    MakeRoomBelow(b, lasts, maxBytes, limit, i);
  }

  lemma RotatedBelow(b: Backups, lasts: Backups, maxBytes: int, limit: int, current: string, last: string)
    requires AllBelow(b, lasts, maxBytes) && BelowLimit(current, maxBytes, last) && limit >= 1
    ensures AllBelow(Rotated(b, limit, current), Rotated(lasts, limit, last), maxBytes)
  {
    MakeRoomBelow(b, lasts, maxBytes, limit, 0);
  }

  /** No backup was made before its file had reached the limit. */
  ghost predicate AllFull(b: Backups, maxBytes: int) {
    forall k :: k in b ==> |b[k]| >= maxBytes
  }

  lemma {:induction false} MakeRoomFull(b: Backups, maxBytes: int, limit: int, i: int)
    requires AllFull(b, maxBytes) && 0 <= i < limit
    ensures AllFull(MakeRoom(b, limit, i), maxBytes)
    decreases limit - i
  {
    if i < limit - 1 {
      MakeRoomFull(b, maxBytes, limit, i + 1);
    }
  }

  /** How the backups and the last writes may stand when a rotation is stopped. */
  ghost predicate StoppedFrom(b: Backups, lasts: Backups, limit: int, b': Backups, lasts': Backups) {
    exists i, cleared | StopPoint(b, limit, i, cleared) ::
      b' == Stopped(b, limit, i, cleared) && lasts' == Stopped(lasts, limit, i, cleared)
  }

  /** Nothing was written, or the first part of `data`, which is then the last write. */
  ghost predicate Landed(data: string, written: string, last: string, written': string, last': string) {
    || (written' == written && last' == last)
    || exists k | 0 <= k <= |data| :: written' == written + data[..k] && last' == data[..k]
  }

  /** A stopped rotation keeps what an open log promises. */
  lemma StoppedKeeps(b: Backups, lasts: Backups, maxBytes: int, limit: int, b': Backups, lasts': Backups)
    requires Within(b, limit) && AllBelow(b, lasts, maxBytes) && AllFull(b, maxBytes) && StoppedFrom(b, lasts, limit, b', lasts')
    ensures Within(b', limit) && AllBelow(b', lasts', maxBytes) && AllFull(b', maxBytes)
    ensures AtMostOldestGone(b, limit, Older(b', limit))
  {
    var i, cleared :| StopPoint(b, limit, i, cleared)
      && b' == Stopped(b, limit, i, cleared) && lasts' == Stopped(lasts, limit, i, cleared);
    StoppedText(b, limit, i, cleared);
    StoppedBelow(b, lasts, maxBytes, limit, i, cleared);
    MakeRoomFull(b, maxBytes, limit, i);
  }

  lemma {:induction false} OlderOfEmpty(k: int)
    ensures Older(map[], k) == ""
    decreases k
  {
    if k > 0 {
      OlderOfEmpty(k - 1);
    }
  }

  class FileSink {
    const maxBytes: int
    const backupCount: int
    var current: Option<string>
    var backups: Backups
    /** Everything ever appended, and the last write to each backup and to the current file. */
    ghost var written: string
    ghost var lasts: Backups
    ghost var currentLast: string

    constructor (maxBytes: int, backupCount: int)
      ensures this.maxBytes == maxBytes && this.backupCount == backupCount
      ensures Valid() && Text() == "" && written == "" && Numbered(backups, 0)
    {
      this.maxBytes := maxBytes;
      this.backupCount := backupCount;
      current := None;
      backups := map[];
      written := "";
      lasts := map[];
      currentLast := "";
      new;
      OlderOfEmpty(Limit());
    }

    /** The highest backup number in use: a count below one still keeps one backup. */
    function Limit(): (r: int)
      ensures r >= 1 && (backupCount >= 1 ==> r == backupCount) && (backupCount < 1 ==> r == 1)
    {
      if backupCount < 1 then 1 else backupCount
    }

    function CurrentText(): string
      reads this`current
    {
      match current case None => "" case Some(t) => t
    }

    /** What all files hold, oldest first. */
    function Text(): string
      reads this`current, this`backups
    {
      Older(backups, Limit()) + CurrentText()
    }

    /** What the next append will extend: all of the text, or after a due rotation what that keeps. */
    function Retained(): string
      reads this`current, this`backups
    {
      if RotationDue() then Kept(backups, Limit()) + CurrentText() else Text()
    }

    /** The backups the next append will find, unless its rotation is stopped. */
    function AfterRotation(): Backups
      reads this`current, this`backups
    {
      if RotationDue() then Rotated(backups, Limit(), current.value) else backups
    }

    ghost function LastsAfterRotation(): Backups
      reads this
    {
      if RotationDue() then Rotated(lasts, Limit(), currentLast) else lasts
    }

    ghost predicate Valid()
      reads this
    {
      && Within(backups, Limit())
      && IsSuffix(Text(), written)
      && AllBelow(backups, lasts, maxBytes)
      && AllFull(backups, maxBytes)
      && (current.Some? ==> BelowLimit(current.value, maxBytes, currentLast))
    }

    predicate RotationDue()
      reads this`current
    {
      current.Some? && |current.value| >= maxBytes
    }

    /** The loop of a rotation; `faulty` tells which file operations raise. */
    method ShiftBackups(faulty: int -> bool) returns (ok: bool)
      requires Within(backups, Limit()) && backups.Keys == lasts.Keys
      modifies this`backups, this`lasts
      ensures ok ==> backups == MakeRoom(old(backups), Limit(), 0) && lasts == MakeRoom(old(lasts), Limit(), 0)
      ensures ok ==> backups.Keys == lasts.Keys
      ensures !ok ==> (exists op :: faulty(op)) && StoppedFrom(old(backups), old(lasts), Limit(), backups, lasts)
    {
      ghost var b, l := backups, lasts;
      for i := Limit() - 1 downto 0
        invariant backups == MakeRoom(b, Limit(), i) && lasts == MakeRoom(l, Limit(), i)
        invariant backups.Keys == lasts.Keys
      {
        var k := i + 1;
        ghost var before, lastsBefore := backups, lasts;
        if k in backups {
          if k + 1 in backups {
            if faulty(2 * k) {
              assert StopPoint(b, Limit(), k, false);
              return false;
            }
            backups := backups - {k + 1};
            lasts := lasts - {k + 1};
          }
          if faulty(2 * k + 1) {
            assert StopPoint(b, Limit(), k, k + 1 in before);
            return false;
          }
          FreeSlotFirst(before, k);
          FreeSlotFirst(lastsBefore, k);
          backups := (backups - {k})[k + 1 := backups[k]];
          lasts := (lasts - {k})[k + 1 := lasts[k]];
        }
        assert backups == MoveUp(before, k) && lasts == MoveUp(lastsBefore, k);
      }
      return true;
    }

    /**
      The file operations of a rotation. One that raises leaves the current file in place and stops
      the backups on their way.
     */
    method Rotate(faulty: int -> bool) returns (ok: bool)
      requires current.Some? && Within(backups, Limit()) && backups.Keys == lasts.Keys
      modifies this`current, this`backups, this`lasts
      ensures ok ==> current == None && backups == Rotated(old(backups), Limit(), old(current).value)
      ensures ok ==> lasts == Rotated(old(lasts), Limit(), currentLast)
      ensures !ok ==> (exists op :: faulty(op)) && current == old(current)
      ensures !ok ==> StoppedFrom(old(backups), old(lasts), Limit(), backups, lasts)
    {
      ghost var b, l := backups, lasts;
      var shifted := ShiftBackups(faulty);
      if !shifted {
        return false;
      }
      if 1 in backups {
        if faulty(0) {
          assert StopPoint(b, Limit(), 0, false);
          return false;
        }
        backups := backups - {1};
        lasts := lasts - {1};
      }
      assert backups == MakeRoom(b, Limit(), 0) - {1} && lasts == MakeRoom(l, Limit(), 0) - {1};
      if faulty(1) {
        assert StopPoint(b, Limit(), 0, 1 in MakeRoom(b, Limit(), 0));
        return false;
      }
      backups := backups[1 := current.value];
      lasts := lasts[1 := currentLast];
      current := None;
      return true;
    }

    /** Rotates when the current file has reached the limit. */
    method RotateIfNeeded(faulty: int -> bool) returns (ok: bool)
      requires Valid()
      modifies this`current, this`backups, this`lasts
      ensures Valid()
      ensures ok ==> !RotationDue() && Text() == old(Retained())
      ensures !old(RotationDue()) ==> ok && current == old(current) && backups == old(backups) && lasts == old(lasts)
      ensures ok ==> backups == old(AfterRotation()) && lasts == old(LastsAfterRotation())
      ensures ok && old(RotationDue()) ==> current == None
      ensures !ok ==> (exists op :: faulty(op)) && current == old(current)
      ensures !ok ==> StoppedFrom(old(backups), old(lasts), Limit(), backups, lasts)
    {
      if current == None || |current.value| < maxBytes {
        return true;
      }
      ghost var b, l, c := backups, lasts, current.value;
      RotatedText(b, Limit(), c);
      assert Within(Rotated(b, Limit(), c), Limit()) by { MakeRoomShape(b, Limit(), 0); }
      RotatedBelow(b, l, maxBytes, Limit(), c, currentLast);
      MakeRoomFull(b, maxBytes, Limit(), 0);
      ok := Rotate(faulty);
      if ok {
        DroppedIsSuffix(b, Limit(), Kept(b, Limit()), c, written);
        assert Text() == Older(backups, Limit());
      } else {
        StoppedKeeps(b, l, maxBytes, Limit(), backups, lasts);
        DroppedIsSuffix(b, Limit(), Older(backups, Limit()), c, written);
      }
    }

    /** Opens for append and writes `data`, of which only the first `kept` bytes reach the file when the write fails. */
    method Append(data: string, kept: nat) returns (ok: bool)
      requires Valid() && !RotationDue() && kept <= |data|
      modifies this
      ensures Valid() && ok == (kept == |data|)
      ensures backups == old(backups) && lasts == old(lasts) && Text() == old(Text()) + data[..kept]
      ensures written == old(written) + data[..kept]
      ensures current == Some(old(CurrentText()) + data[..kept]) && currentLast == data[..kept]
    {
      var part, before := data[..kept], CurrentText();
      SuffixExtends(Text(), written, part);
      Reassociate(Older(backups, Limit()), before, part);
      ExtendedBelowLimit(before, part, maxBytes);
      written := written + part;
      currentLast := part;
      current := Some(before + part);
      return kept == |data|;
    }

    /** Rotates if that is due and appends `data`; every failure on the way is reported as False. */
    method RotateAndAppend(data: string, faulty: int -> bool, kept: nat) returns (ok: bool)
      requires Valid() && kept <= |data|
      modifies this
      ensures Valid()
      ensures ok ==> written == old(written) + data && Text() == old(Retained()) + data && currentLast == data
      ensures ok || !old(RotationDue()) ==> backups == old(AfterRotation()) && lasts == old(LastsAfterRotation())
      ensures (backups == old(AfterRotation()) && lasts == old(LastsAfterRotation()))
           || StoppedFrom(old(backups), old(lasts), Limit(), backups, lasts)
      ensures ok && old(NoGaps(backups, Limit())) ==> NoGaps(backups, Limit())
      ensures !ok ==> (exists op :: faulty(op)) || kept < |data|
      ensures Landed(data, old(written), old(currentLast), written, currentLast)
    {
      RotationKeepsNoGaps(backups, Limit(), CurrentText());
      var rotated := RotateIfNeeded(faulty);
      if !rotated {
        return false;
      }
      assert data[..|data|] == data;
      ok := Append(data, kept);
    }

    /** Appends one event. */
    method Send(line: string, faulty: int -> bool, kept: nat) returns (sent: bool)
      requires Valid() && kept <= |Joined([line])|
      modifies this
      ensures Valid()
      ensures sent ==> written == old(written) + Joined([line]) && Text() == old(Retained()) + Joined([line]) && currentLast == Joined([line])
      ensures sent || !old(RotationDue()) ==> backups == old(AfterRotation()) && lasts == old(LastsAfterRotation())
      ensures (backups == old(AfterRotation()) && lasts == old(LastsAfterRotation()))
           || StoppedFrom(old(backups), old(lasts), Limit(), backups, lasts)
      ensures sent && old(NoGaps(backups, Limit())) ==> NoGaps(backups, Limit())
      ensures !sent ==> (exists op :: faulty(op)) || kept < |Joined([line])|
      ensures Landed(Joined([line]), old(written), old(currentLast), written, currentLast)
    {
      var data := JoinLines([line]);
      sent := RotateAndAppend(data, faulty, kept);
    }

    static method JoinLines(lines: seq<string>) returns (data: string)
      ensures data == Joined(lines)
    {
      data := "";
      for i := 0 to |lines|
        invariant data == Joined(lines[..i])
      {
        assert lines[..i + 1][..i] == lines[..i];
        data := data + lines[i] + "\n";
      }
      assert lines[..|lines|] == lines;
    }

    /** Appends a batch with a single rotation test; returns how many events were sent, all or none. */
    method SendBatch(lines: seq<string>, faulty: int -> bool, kept: nat) returns (sent: nat)
      requires Valid() && kept <= |Joined(lines)|
      modifies this
      ensures Valid()
      ensures sent == |lines| || sent == 0
      ensures lines == [] ==>
        current == old(current) && backups == old(backups) && lasts == old(lasts) && written == old(written)
      ensures sent > 0 ==>
        written == old(written) + Joined(lines) && Text() == old(Retained()) + Joined(lines) && currentLast == Joined(lines)
      ensures sent > 0 || (lines != [] && !old(RotationDue())) ==>
        backups == old(AfterRotation()) && lasts == old(LastsAfterRotation())
      ensures lines == [] || (backups == old(AfterRotation()) && lasts == old(LastsAfterRotation()))
           || StoppedFrom(old(backups), old(lasts), Limit(), backups, lasts)
      ensures sent == |lines| && old(NoGaps(backups, Limit())) ==> NoGaps(backups, Limit())
      ensures sent < |lines| ==> (exists op :: faulty(op)) || kept < |Joined(lines)|
      ensures Landed(Joined(lines), old(written), old(currentLast), written, currentLast)
    {
      if lines == [] {
        return 0;
      }
      var data := JoinLines(lines);
      var ok := RotateAndAppend(data, faulty, kept);
      sent := if ok then |lines| else 0;
    }
  }

  // ----- lines ------------------------------------------------------------------------------------

  predicate IsLine(line: string) {
    '\n' !in line
  }

  predicate AreLines(lines: seq<string>) {
    forall i :: 0 <= i < |lines| ==> IsLine(lines[i])
  }

  lemma JoinedEnd(lines: seq<string>)
    requires lines != []
    ensures var text := Joined(lines); text != "" && text[|text| - 1] == '\n'
    ensures |Joined(lines)| == |Joined(lines[..|lines| - 1])| + |lines[|lines| - 1]| + 1
  {
  }

  lemma LongerLineHasBreak(p: string, x: string, q: string, y: string)
    requires p + x + "\n" == q + y + "\n" && |x| < |y|
    requires p != "" ==> p[|p| - 1] == '\n'
    ensures '\n' in y
  {
    var whole := p + x + "\n";
    assert whole[|p| - 1] == '\n';
    assert whole[|p| - 1] == y[|p| - 1 - |q|];
  }

  /** Where texts that are empty or end a line are continued by one line each, equal results split alike. */
  lemma LastLineIsClear(p: string, x: string, q: string, y: string)
    requires p + x + "\n" == q + y + "\n" && IsLine(x) && IsLine(y) && |x| <= |y|
    requires p != "" ==> p[|p| - 1] == '\n'
    ensures p == q && x == y
  {
    var whole := p + x + "\n";
    if |x| < |y| {
      LongerLineHasBreak(p, x, q, y);
    }
    assert p == whole[..|p|] && q == whole[..|q|];
    assert x == whole[|p|..|p| + |x|] && y == whole[|q|..|q| + |y|];
  }

  /** A batch stands in the file one event to a line: from what was written the lines can be told apart. */
  lemma {:induction false} JoinedIsInjective(a: seq<string>, b: seq<string>)
    requires AreLines(a) && AreLines(b) && Joined(a) == Joined(b)
    ensures a == b
    decreases |a|
  {
    if a != [] && b != [] {
      var (a0, b0) := (a[..|a| - 1], b[..|b| - 1]);
      var (x, y) := (a[|a| - 1], b[|b| - 1]);
      if a0 != [] {
        JoinedEnd(a0);
      }
      if b0 != [] {
        JoinedEnd(b0);
      }
      if |x| <= |y| {
        LastLineIsClear(Joined(a0), x, Joined(b0), y);
      } else {
        LastLineIsClear(Joined(b0), y, Joined(a0), x);
      }
      JoinedIsInjective(a0, b0);
      assert a == a0 + [x] && b == b0 + [y];
    } else if a != [] {
      JoinedEnd(a);
    } else if b != [] {
      JoinedEnd(b);
    }
  }
}
