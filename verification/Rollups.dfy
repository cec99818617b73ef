/**
 * The chained rollups: a view over raw inserts fills the per-minute table, a view over that table's inserts fills the
 * per-day table, and background merges combine rows of one key whenever they like.
 */
module Rollups {
  import opened Events
  import opened Sets

  /** A raw row; `ingestedAt` is in milliseconds. */
  datatype Edit = Edit(ingestedAt: nat, wiki: string, kind: string, user: Option<string>, bot: int)

  /** A rolled-up row: its time bucket, three sums and the set of editors. */
  datatype Roll = Roll(time: nat, wiki: string, state: State)

  datatype State = State(edits: nat, bots: nat, newPages: nat, editors: set<string>)

  const ZERO := State(0, 0, 0, {})

  function Combined(a: State, b: State): State {
    State(a.edits + b.edits, a.bots + b.bots, a.newPages + b.newPages, a.editors + b.editors)
  }

  // ------------------------------------------------------------------
  // The two views
  // ------------------------------------------------------------------

  /** `toStartOfMinute`, in seconds. */
  function StartOfMinute(ms: nat): nat { ms / 60000 * 60 }

  /** `toDate` of a time in seconds. */
  function DayOf(seconds: nat): nat { seconds / 86400 }

  /** A row's contribution to its group; a null user counts as no editor. */
  function StateOf(e: Edit): State {
    State(1, if e.bot == 1 then 1 else 0, if e.kind == "new" then 1 else 0, if e.user.Some? then {e.user.value} else {})
  }

  /** Add a row to its group, opening the group if there is none. */
  function Upsert(groups: seq<Roll>, r: Roll): seq<Roll> {
    if groups == [] then [r]
    else if groups[0].time == r.time && groups[0].wiki == r.wiki then
      [groups[0].(state := Combined(groups[0].state, r.state))] + groups[1..]
    else [groups[0]] + Upsert(groups[1..], r)
  }

  /** GROUP BY (time, wiki). */
  function Group(rows: seq<Roll>): seq<Roll> {
    if rows == [] then [] else Upsert(Group(rows[..|rows| - 1]), rows[|rows| - 1])
  }

  function ByMinute(block: seq<Edit>): seq<Roll> {
    seq(|block|, i requires 0 <= i < |block| =>
      Roll(StartOfMinute(block[i].ingestedAt), block[i].wiki, StateOf(block[i])))
  }

  function ByDay(rows: seq<Roll>): seq<Roll> {
    seq(|rows|, i requires 0 <= i < |rows| => rows[i].(time := DayOf(rows[i].time)))
  }

  /** What `edits_1m_mv` inserts for one block of raw rows. */
  function MinuteView(block: seq<Edit>): seq<Roll> {
    Group(ByMinute(block))
  }

  /** What `edits_1d_mv` inserts for one block of per-minute rows. */
  function DayView(rows: seq<Roll>): seq<Roll> {
    Group(ByDay(rows))
  }

  // ------------------------------------------------------------------
  // The tables over time
  // ------------------------------------------------------------------

  datatype Tables = Tables(minutes: seq<Roll>, days: seq<Roll>)

  /** A block arrives; a merge combines rows `i` and `j` of a table; rows older than `cut` expire from `edits_1m`. */
  datatype Step =
    | Insert(block: seq<Edit>)
    | MergeMinutes(i: nat, j: nat)
    | MergeDays(i: nat, j: nat)
    | Expire(cut: nat)

  /** Two rows of one key become one; anything else is no merge. */
  function MergeRows(rows: seq<Roll>, i: nat, j: nat): seq<Roll> {
    if i < j < |rows| && rows[i].time == rows[j].time && rows[i].wiki == rows[j].wiki then
      rows[..i] + [rows[i].(state := Combined(rows[i].state, rows[j].state))] + rows[i + 1..j] + rows[j + 1..]
    else rows
  }

  function Younger(rows: seq<Roll>, cut: nat): seq<Roll> {
    if rows == [] then []
    else Younger(rows[..|rows| - 1], cut) + if rows[|rows| - 1].time >= cut then [rows[|rows| - 1]] else []
  }

  function Perform(t: Tables, s: Step): Tables {
    match s
    case Insert(block) => Tables(t.minutes + MinuteView(block), t.days + DayView(MinuteView(block)))
    case MergeMinutes(i, j) => t.(minutes := MergeRows(t.minutes, i, j))
    case MergeDays(i, j) => t.(days := MergeRows(t.days, i, j))
    case Expire(cut) => t.(minutes := Younger(t.minutes, cut))
  }

  function TablesAfter(steps: seq<Step>): Tables {
    if steps == [] then Tables([], []) else Perform(TablesAfter(steps[..|steps| - 1]), steps[|steps| - 1])
  }

  /** Every raw row inserted, redeliveries included. */
  function Inserted(steps: seq<Step>): seq<Edit> {
    if steps == [] then []
    else
      var before, s := Inserted(steps[..|steps| - 1]), steps[|steps| - 1];
      if s.Insert? then before + s.block else before
  }

  // ------------------------------------------------------------------
  // What a query over a table sees, and what raw counting says
  // ------------------------------------------------------------------

  /** A bucket of time in minutes or days. */
  datatype Bucket = Minute(start: nat) | Day(day: nat)

  /** Rows of the per-minute table seen by minute, or by the day they fall in. */
  predicate Falls(b: Bucket, seconds: nat) {
    match b
    case Minute(start) => seconds == start
    case Day(day) => DayOf(seconds) == day
  }

  /** Summing and merging the states of a table's rows that match. */
  function Seen(rows: seq<Roll>, b: Bucket, wiki: string): State {
    if rows == [] then ZERO
    else
      var before, r := Seen(rows[..|rows| - 1], b, wiki), rows[|rows| - 1];
      if r.wiki == wiki && Falls(b, r.time) then Combined(before, r.state) else before
  }

  /** The same over the per-day table, whose times are days already. */
  function SeenDay(rows: seq<Roll>, day: nat, wiki: string): State {
    Seen(rows, Minute(day), wiki)
  }

  predicate InBucket(e: Edit, b: Bucket, wiki: string) {
    e.wiki == wiki
    && match b
       case Minute(start) => start % 60 == 0 && 1000 * start <= e.ingestedAt < 1000 * start + 60000
       case Day(day) => e.ingestedAt / 86400000 == day
  }

  function CountRows(rows: seq<Edit>, b: Bucket, wiki: string): nat {
    if rows == [] then 0
    else CountRows(rows[..|rows| - 1], b, wiki) + if InBucket(rows[|rows| - 1], b, wiki) then 1 else 0
  }

  function CountBots(rows: seq<Edit>, b: Bucket, wiki: string): nat {
    if rows == [] then 0
    else CountBots(rows[..|rows| - 1], b, wiki)
         + if InBucket(rows[|rows| - 1], b, wiki) && rows[|rows| - 1].bot == 1 then 1 else 0
  }

  function CountNew(rows: seq<Edit>, b: Bucket, wiki: string): nat {
    if rows == [] then 0
    else CountNew(rows[..|rows| - 1], b, wiki)
         + if InBucket(rows[|rows| - 1], b, wiki) && rows[|rows| - 1].kind == "new" then 1 else 0
  }

  ghost function EditorsIn(rows: seq<Edit>, b: Bucket, wiki: string): set<string> {
    set i | 0 <= i < |rows| && InBucket(rows[i], b, wiki) && rows[i].user.Some? :: rows[i].user.value
  }

  /** The counts of the raw rows themselves. */
  ghost function Raw(rows: seq<Edit>, b: Bucket, wiki: string): State {
    State(CountRows(rows, b, wiki), CountBots(rows, b, wiki), CountNew(rows, b, wiki), EditorsIn(rows, b, wiki))
  }

  // ------------------------------------------------------------------
  // Grouping and merging change no query
  // ------------------------------------------------------------------

  lemma CombiningIsFree(a: State, b: State, c: State)
    ensures Combined(Combined(a, b), c) == Combined(a, Combined(b, c))
    ensures Combined(a, b) == Combined(b, a) && Combined(a, ZERO) == a == Combined(ZERO, a)
  {
  }

  lemma {:induction false} SeenConcat(a: seq<Roll>, b: seq<Roll>, k: Bucket, wiki: string)
    ensures Seen(a + b, k, wiki) == Combined(Seen(a, k, wiki), Seen(b, k, wiki))
  {
    hide Falls, Combined;
    if b == [] {
      assert a + b == a;
      CombiningIsFree(Seen(a, k, wiki), ZERO, ZERO);
    } else {
      assert (a + b)[..|a + b| - 1] == a + b[..|b| - 1];
      SeenConcat(a, b[..|b| - 1], k, wiki);
      CombiningIsFree(Seen(a, k, wiki), Seen(b[..|b| - 1], k, wiki), b[|b| - 1].state);
    }
  }

  lemma SeenOne(r: Roll, b: Bucket, wiki: string)
    ensures Seen([r], b, wiki) == if r.wiki == wiki && Falls(b, r.time) then r.state else ZERO
  {
    assert [r][..0] == [];
  }

  lemma {:induction false} UpsertSeen(groups: seq<Roll>, r: Roll, b: Bucket, wiki: string)
    ensures Seen(Upsert(groups, r), b, wiki) == Combined(Seen(groups, b, wiki), Seen([r], b, wiki))
  {
    hide Falls, Seen, Combined;
    SeenOne(r, b, wiki);
    if groups == [] {
      SeenNone(b, wiki);
      CombiningIsFree(Seen([r], b, wiki), ZERO, ZERO);
    } else {
      var first, rest := groups[0], groups[1..];
      SeenConcat([first], rest, b, wiki);
      assert groups == [first] + rest;
      SeenOne(first, b, wiki);
      CombiningIsFree(Seen([first], b, wiki), Seen(rest, b, wiki), Seen([r], b, wiki));
      if first.time == r.time && first.wiki == r.wiki {
        var merged := first.(state := Combined(first.state, r.state));
        SeenConcat([merged], rest, b, wiki);
        SeenOne(merged, b, wiki);
        CombiningIsFree(Seen(rest, b, wiki), Seen([r], b, wiki), ZERO);
        CombiningIsFree(first.state, r.state, Seen(rest, b, wiki));
        CombiningIsFree(ZERO, ZERO, Seen(rest, b, wiki));
      } else {
        UpsertSeen(rest, r, b, wiki);
        SeenConcat([first], Upsert(rest, r), b, wiki);
      }
    }
  }

  lemma SeenNone(b: Bucket, wiki: string)
    ensures Seen([], b, wiki) == ZERO
  {
  }

  /** A GROUP BY preserves what every query sees. */
  lemma {:induction false} GroupSeen(rows: seq<Roll>, b: Bucket, wiki: string)
    ensures Seen(Group(rows), b, wiki) == Seen(rows, b, wiki)
  {
    hide Falls;
    if rows != [] {
      var front, last := rows[..|rows| - 1], rows[|rows| - 1];
      GroupSeen(front, b, wiki);
      UpsertSeen(Group(front), last, b, wiki);
      SeenOne(last, b, wiki);
    }
  }

  ghost function KeysOf(rows: seq<Roll>): set<(nat, string)> {
    set i | 0 <= i < |rows| :: (rows[i].time, rows[i].wiki)
  }

  ghost predicate OneRowPerKey(rows: seq<Roll>) {
    forall i, j :: 0 <= i < j < |rows| ==> rows[i].time != rows[j].time || rows[i].wiki != rows[j].wiki
  }

  lemma KeysCons(r: Roll, rows: seq<Roll>)
    ensures KeysOf([r] + rows) == {(r.time, r.wiki)} + KeysOf(rows)
    ensures OneRowPerKey([r] + rows) <==> OneRowPerKey(rows) && (r.time, r.wiki) !in KeysOf(rows)
  {
    var all := [r] + rows;
    assert forall i :: 0 <= i < |rows| ==> all[i + 1] == rows[i];
    assert all[0] == r;
    forall i | 0 <= i < |all| ensures (all[i].time, all[i].wiki) in {(r.time, r.wiki)} + KeysOf(rows) {
      if i > 0 { assert all[i] == rows[i - 1]; }
    }
    forall i | 0 <= i < |rows| ensures (rows[i].time, rows[i].wiki) in KeysOf(all) {
      assert all[i + 1] == rows[i];
    }
  }

  lemma {:induction false} UpsertKeys(groups: seq<Roll>, r: Roll)
    requires OneRowPerKey(groups)
    ensures OneRowPerKey(Upsert(groups, r)) && KeysOf(Upsert(groups, r)) == KeysOf(groups) + {(r.time, r.wiki)}
  {
    hide OneRowPerKey, KeysOf;
    if groups == [] {
      assert groups == [];
      KeysCons(r, groups);
      assert [r] + groups == [r];
      NoKeys();
    } else {
      var first, rest := groups[0], groups[1..];
      assert groups == [first] + rest;
      KeysCons(first, rest);
      if first.time == r.time && first.wiki == r.wiki {
        KeysCons(first.(state := Combined(first.state, r.state)), rest);
      } else {
        UpsertKeys(rest, r);
        KeysCons(first, Upsert(rest, r));
      }
    }
  }

  lemma NoKeys()
    ensures KeysOf([]) == {} && OneRowPerKey([])
  {
  }

  /** A GROUP BY gives one row for each key that occurs. */
  lemma {:induction false} GroupKeys(rows: seq<Roll>)
    ensures OneRowPerKey(Group(rows)) && KeysOf(Group(rows)) == KeysOf(rows)
  {
    if rows != [] {
      var front, last := rows[..|rows| - 1], rows[|rows| - 1];
      GroupKeys(front);
      UpsertKeys(Group(front), last);
      KeysSnoc(rows);
    }
  }

  lemma KeysSnoc(rows: seq<Roll>)
    requires rows != []
    ensures KeysOf(rows) == KeysOf(rows[..|rows| - 1]) + {(rows[|rows| - 1].time, rows[|rows| - 1].wiki)}
  {
    var front := rows[..|rows| - 1];
    forall i | 0 <= i < |front| ensures (front[i].time, front[i].wiki) in KeysOf(rows) {
      assert rows[i] == front[i];
    }
    forall i | 0 <= i < |rows| - 1 ensures (rows[i].time, rows[i].wiki) in KeysOf(front) {
      assert rows[i] == front[i];
    }
  }

  lemma KeysConcat(a: seq<Roll>, b: seq<Roll>)
    ensures KeysOf(a + b) == KeysOf(a) + KeysOf(b)
  {
    var all := a + b;
    forall i | 0 <= i < |a| ensures (a[i].time, a[i].wiki) in KeysOf(all) { assert all[i] == a[i]; }
    forall i | 0 <= i < |b| ensures (b[i].time, b[i].wiki) in KeysOf(all) { assert all[|a| + i] == b[i]; }
  }

  /** A background merge of two rows of one key leaves one row fewer, and the same keys. */
  lemma MergeJoins(rows: seq<Roll>, i: nat, j: nat)
    requires i < j < |rows| && rows[i].time == rows[j].time && rows[i].wiki == rows[j].wiki
    ensures |MergeRows(rows, i, j)| == |rows| - 1
    ensures KeysOf(MergeRows(rows, i, j)) == KeysOf(rows)
  {
    hide KeysOf, Combined;
    var left, mid, right := rows[..i], rows[i + 1..j], rows[j + 1..];
    var merged := rows[i].(state := Combined(rows[i].state, rows[j].state));
    assert rows == left + [rows[i]] + mid + [rows[j]] + right;
    KeysConcat(left, [rows[i]]);
    KeysConcat(left + [rows[i]], mid);
    KeysConcat(left + [rows[i]] + mid, [rows[j]]);
    KeysConcat(left + [rows[i]] + mid + [rows[j]], right);
    KeysConcat(left, [merged]);
    KeysConcat(left + [merged], mid);
    KeysConcat(left + [merged] + mid, right);
    KeyOfOne(rows[i]);
    KeyOfOne(rows[j]);
    KeyOfOne(merged);
  }

  lemma KeyOfOne(r: Roll)
    ensures KeysOf([r]) == {(r.time, r.wiki)}
  {
    assert [r][0] == r;
  }

  /** Expiry removes exactly the rows older than the cut. */
  lemma {:induction false} YoungerAre(rows: seq<Roll>, cut: nat)
    ensures forall r :: r in Younger(rows, cut) <==> r in rows && r.time >= cut
  {
    if rows != [] {
      var front, last := rows[..|rows| - 1], rows[|rows| - 1];
      YoungerAre(front, cut);
      assert rows == front + [last];
    }
  }

  /** A background merge preserves what every query sees. */
  lemma MergeSeen(rows: seq<Roll>, i: nat, j: nat, b: Bucket, wiki: string)
    ensures Seen(MergeRows(rows, i, j), b, wiki) == Seen(rows, b, wiki)
  {
    hide Falls, Seen;
    if i < j < |rows| && rows[i].time == rows[j].time && rows[i].wiki == rows[j].wiki {
      var left, mid, right := rows[..i], rows[i + 1..j], rows[j + 1..];
      var merged := rows[i].(state := Combined(rows[i].state, rows[j].state));
      assert rows == left + [rows[i]] + mid + [rows[j]] + right;
      SeenConcat(left, [rows[i]], b, wiki);
      SeenConcat(left + [rows[i]], mid, b, wiki);
      SeenConcat(left + [rows[i]] + mid, [rows[j]], b, wiki);
      SeenConcat(left + [rows[i]] + mid + [rows[j]], right, b, wiki);
      SeenConcat(left, [merged], b, wiki);
      SeenConcat(left + [merged], mid, b, wiki);
      SeenConcat(left + [merged] + mid, right, b, wiki);
      SeenOne(rows[i], b, wiki);
      SeenOne(rows[j], b, wiki);
      SeenOne(merged, b, wiki);
    }
  }

  /** Re-bucketing per-minute rows by day: the day view sees what a daily query over the minutes sees. */
  lemma {:induction false} ByDaySeen(rows: seq<Roll>, day: nat, wiki: string)
    ensures SeenDay(ByDay(rows), day, wiki) == Seen(rows, Day(day), wiki)
  {
    if rows != [] {
      ByDaySeen(rows[..|rows| - 1], day, wiki);
      assert ByDay(rows)[..|rows| - 1] == ByDay(rows[..|rows| - 1]);
    }
  }

  // ------------------------------------------------------------------
  // One block against raw counting
  // ------------------------------------------------------------------

  /** A minute's key is a whole minute, and the minute contains the time. */
  lemma MinuteContains(ms: nat)
    ensures StartOfMinute(ms) % 60 == 0 && 1000 * StartOfMinute(ms) <= ms < 1000 * StartOfMinute(ms) + 60000
  {
    var m := ms / 60000;
    assert ms == m * 60000 + ms % 60000;
    assert m * 60 % 60 == 0;
  }

  lemma DayOfMinute(ms: nat)
    ensures DayOf(StartOfMinute(ms)) == ms / 86400000
  {
    var m := ms / 60000;
    assert m * 60 / 86400 == m / 1440;
    assert ms / 60000 / 1440 == ms / 86400000;
  }

  lemma BucketOfMinute(e: Edit, b: Bucket, wiki: string)
    ensures InBucket(e, b, wiki) <==> e.wiki == wiki && Falls(b, StartOfMinute(e.ingestedAt))
  {
    hide StartOfMinute, DayOf;
    DayOfMinute(e.ingestedAt);
    MinuteContains(e.ingestedAt);
    if b.Minute? && b.start % 60 == 0 && 1000 * b.start <= e.ingestedAt < 1000 * b.start + 60000 {
      SameMinute(b.start, StartOfMinute(e.ingestedAt), e.ingestedAt);
    }
  }

  lemma SameMinute(x: nat, y: nat, ms: nat)
    requires x % 60 == 0 && 1000 * x <= ms < 1000 * x + 60000
    requires y % 60 == 0 && 1000 * y <= ms < 1000 * y + 60000
    ensures x == y
  {
    assert x == x / 60 * 60 && y == y / 60 * 60;
  }

  lemma EditorsSnoc(rows: seq<Edit>, e: Edit, b: Bucket, wiki: string)
    ensures EditorsIn(rows + [e], b, wiki)
            == EditorsIn(rows, b, wiki) + if InBucket(e, b, wiki) then StateOf(e).editors else {}
  {
    hide InBucket;
    var all := rows + [e];
    forall u | u in EditorsIn(rows, b, wiki) ensures u in EditorsIn(all, b, wiki) {
      var i :| 0 <= i < |rows| && InBucket(rows[i], b, wiki) && rows[i].user == Some(u);
      assert all[i] == rows[i];
    }
    assert all[|rows|] == e;
  }

  lemma {:induction false} RawOfMinutes(block: seq<Edit>, b: Bucket, wiki: string)
    ensures Seen(ByMinute(block), b, wiki) == Raw(block, b, wiki)
  {
    hide InBucket, Falls, StartOfMinute, EditorsIn;
    if block == [] {
      NoEditors(b, wiki);
    } else {
      var front, last := block[..|block| - 1], block[|block| - 1];
      RawOfMinutes(front, b, wiki);
      assert ByMinute(block)[..|front|] == ByMinute(front);
      assert block == front + [last];
      BucketOfMinute(last, b, wiki);
      EditorsSnoc(front, last, b, wiki);
    }
  }

  lemma NoEditors(b: Bucket, wiki: string)
    ensures EditorsIn([], b, wiki) == {}
  {
  }

  /** What one row adds to a bucket. */
  function Own(e: Edit, b: Bucket, wiki: string): State {
    if InBucket(e, b, wiki) then StateOf(e) else ZERO
  }

  lemma RawSnoc(rows: seq<Edit>, e: Edit, b: Bucket, wiki: string)
    ensures Raw(rows + [e], b, wiki) == Combined(Raw(rows, b, wiki), Own(e, b, wiki))
  {
    hide InBucket, EditorsIn;
    var all := rows + [e];
    assert all[..|all| - 1] == rows && all[|all| - 1] == e;
    EditorsSnoc(rows, e, b, wiki);
  }

  lemma {:induction false} RawConcat(x: seq<Edit>, y: seq<Edit>, b: Bucket, wiki: string)
    ensures Raw(x + y, b, wiki) == Combined(Raw(x, b, wiki), Raw(y, b, wiki))
  {
    hide Raw, Combined;
    if y == [] {
      assert x + y == x;
      NothingInserted(b, wiki);
      CombiningIsFree(Raw(x, b, wiki), ZERO, ZERO);
    } else {
      var front, last := y[..|y| - 1], y[|y| - 1];
      RawConcat(x, front, b, wiki);
      RawSnoc(front, last, b, wiki);
      RawSnoc(x + front, last, b, wiki);
      assert front + [last] == y && x + front + [last] == x + y;
      CombiningIsFree(Raw(x, b, wiki), Raw(front, b, wiki), Own(last, b, wiki));
    }
  }

  // ------------------------------------------------------------------
  // Whole histories
  // ------------------------------------------------------------------

  /**
   * For any split of the rows into blocks, any background merges in between and any expiry of old minutes, the
   * per-day table agrees with counting the inserted rows by day and wiki: sums exactly, editors as sets.
   */
  lemma {:induction false} DaysAgreeWithRaw(steps: seq<Step>, day: nat, wiki: string)
    ensures SeenDay(TablesAfter(steps).days, day, wiki) == Raw(Inserted(steps), Day(day), wiki)
  {
    hide Falls, Raw, Seen, MinuteView, InBucket;
    if steps == [] {
      NothingInserted(Day(day), wiki);
      NothingInserted(Minute(day), wiki);
    } else {
      var before, s := steps[..|steps| - 1], steps[|steps| - 1];
      DaysAgreeWithRaw(before, day, wiki);
      var t := TablesAfter(before);
      match s
      case Insert(block) =>
        SeenConcat(t.days, DayView(MinuteView(block)), Minute(day), wiki);
        BlockByDay(block, day, wiki);
        RawConcat(Inserted(before), block, Day(day), wiki);
      case MergeDays(i, j) => MergeSeen(t.days, i, j, Minute(day), wiki);
      case MergeMinutes(_, _) =>
      case Expire(_) =>
    }
  }

  lemma NothingInserted(b: Bucket, wiki: string)
    ensures Raw([], b, wiki) == ZERO == Seen([], b, wiki)
  {
  }

  lemma BlockByDay(block: seq<Edit>, day: nat, wiki: string)
    ensures SeenDay(DayView(MinuteView(block)), day, wiki) == Raw(block, Day(day), wiki)
  {
    hide Falls, Raw, Seen;
    GroupSeen(ByDay(MinuteView(block)), Minute(day), wiki);
    ByDaySeen(MinuteView(block), day, wiki);
    GroupSeen(ByMinute(block), Day(day), wiki);
    RawOfMinutes(block, Day(day), wiki);
  }

  /** The per-minute table agrees too, for every minute no expiry has reached. */
  lemma {:induction false} MinutesAgreeWithRaw(steps: seq<Step>, start: nat, wiki: string)
    requires forall s :: s in steps && s.Expire? ==> s.cut <= start
    ensures Seen(TablesAfter(steps).minutes, Minute(start), wiki) == Raw(Inserted(steps), Minute(start), wiki)
  {
    hide Falls, Raw, Seen, ByMinute, InBucket, DayView;
    if steps == [] {
      NothingInserted(Minute(start), wiki);
    } else {
      var before, s := steps[..|steps| - 1], steps[|steps| - 1];
      MinutesAgreeWithRaw(before, start, wiki);
      var t := TablesAfter(before);
      match s
      case Insert(block) =>
        SeenConcat(t.minutes, MinuteView(block), Minute(start), wiki);
        GroupSeen(ByMinute(block), Minute(start), wiki);
        RawOfMinutes(block, Minute(start), wiki);
        RawConcat(Inserted(before), block, Minute(start), wiki);
      case MergeMinutes(i, j) => MergeSeen(t.minutes, i, j, Minute(start), wiki);
      case MergeDays(_, _) =>
      case Expire(cut) => YoungerSeen(t.minutes, cut, start, wiki);
    }
  }

  lemma {:induction false} YoungerSeen(rows: seq<Roll>, cut: nat, start: nat, wiki: string)
    requires cut <= start
    ensures Seen(Younger(rows, cut), Minute(start), wiki) == Seen(rows, Minute(start), wiki)
  {
    if rows != [] {
      var front, last := rows[..|rows| - 1], rows[|rows| - 1];
      YoungerSeen(front, cut, start, wiki);
      if last.time >= cut {
        assert Younger(rows, cut)[..|Younger(rows, cut)| - 1] == Younger(front, cut);
      } else {
        assert Younger(rows, cut) == Younger(front, cut);
      }
    }
  }

  /** How the rows were cut into blocks, and how often the tables were merged, cannot be told from any daily query. */
  lemma SplitsDoNotMatter(a: seq<Step>, b: seq<Step>, day: nat, wiki: string)
    requires multiset(Inserted(a)) == multiset(Inserted(b))
    ensures SeenDay(TablesAfter(a).days, day, wiki) == SeenDay(TablesAfter(b).days, day, wiki)
  {
    DaysAgreeWithRaw(a, day, wiki);
    DaysAgreeWithRaw(b, day, wiki);
    RawPermutes(Inserted(a), Inserted(b), Day(day), wiki);
  }

  lemma {:induction false} RawPermutes(x: seq<Edit>, y: seq<Edit>, b: Bucket, wiki: string)
    requires multiset(x) == multiset(y)
    ensures Raw(x, b, wiki) == Raw(y, b, wiki)
    decreases |x|
  {
    hide Raw;
    assert |multiset(x)| == |multiset(y)|;
    if x == [] {
      assert y == [];
    } else {
      var i := Extract(x, y);
      var front, last, left, right := x[..|x| - 1], [x[|x| - 1]], y[..i], y[i + 1..];
      RawPermutes(front, left + right, b, wiki);
      assert front + last == x;
      RawConcat(front, last, b, wiki);
      RawConcat(left, right, b, wiki);
      RawConcat(left, last, b, wiki);
      RawConcat(left + last, right, b, wiki);
    }
  }

  /**
   * A redelivered message is counted again in every sum of its day, never in the editors, and other groups do not
   * notice.
   */
  lemma RedeliveryCountsTwice(steps: seq<Step>, e: Edit, day: nat, wiki: string)
    requires e in Inserted(steps)
    ensures var before, after := SeenDay(TablesAfter(steps).days, day, wiki),
                                 SeenDay(TablesAfter(steps + [Insert([e])]).days, day, wiki);
      && after.editors == before.editors
      && (if InBucket(e, Day(day), wiki) then
            && after.edits == before.edits + 1
            && after.bots == before.bots + (if e.bot == 1 then 1 else 0)
            && after.newPages == before.newPages + (if e.kind == "new" then 1 else 0)
          else after == before)
  {
    hide Raw, InBucket, TablesAfter, SeenDay;
    var rows := Inserted(steps);
    assert (steps + [Insert([e])])[..|steps|] == steps;
    DaysAgreeWithRaw(steps, day, wiki);
    DaysAgreeWithRaw(steps + [Insert([e])], day, wiki);
    RawConcat(rows, [e], Day(day), wiki);
    RawOfOne(rows, e, Day(day), wiki);
  }

  lemma RawOfOne(rows: seq<Edit>, e: Edit, b: Bucket, wiki: string)
    requires e in rows
    ensures Raw([e], b, wiki) == if InBucket(e, b, wiki) then StateOf(e) else ZERO
    ensures InBucket(e, b, wiki) ==> StateOf(e).editors <= Raw(rows, b, wiki).editors
  {
    hide InBucket, EditorsIn;
    var one := [e];
    assert one[..|one| - 1] == [] && [] + [e] == one;
    EditorsSnoc([], e, b, wiki);
    NoEditors(b, wiki);
    assert CountRows(one, b, wiki) == if InBucket(e, b, wiki) then 1 else 0;
    assert CountBots(one, b, wiki) == if InBucket(e, b, wiki) && e.bot == 1 then 1 else 0;
    assert CountNew(one, b, wiki) == if InBucket(e, b, wiki) && e.kind == "new" then 1 else 0;
    assert EditorsIn(one, b, wiki) == if InBucket(e, b, wiki) then StateOf(e).editors else {};
    if InBucket(e, b, wiki) { EditorListed(rows, e, b, wiki); }
  }

  lemma EditorListed(rows: seq<Edit>, e: Edit, b: Bucket, wiki: string)
    requires e in rows && InBucket(e, b, wiki)
    ensures StateOf(e).editors <= EditorsIn(rows, b, wiki)
  {
    hide InBucket;
    var i :| 0 <= i < |rows| && rows[i] == e;
  }
}
