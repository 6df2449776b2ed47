/** Pushing a list's own canon back: when it changes nothing, and after how many pushes it settles. */
module FixedPoint {
  import opened Wrappers
  import opened Text
  import opened Json
  import opened Blocks
  import opened Canon
  import opened Reading
  import opened Rows

  /** What the database holds about a list: its number, its meta and the rows of the current version. */
  datatype Listing = Listing(version: nat, meta: Meta, rows: seq<StepRow>)

  function Current(l: Listing): VersionData {
    LoadVersion(l.version, "", 0, l.meta, l.rows)
  }

  function CanonOf(l: Listing): Json {
    ListJson(Current(l))
  }

  /** Numbers of the version and of its steps fit an `i32`. */
  predicate Fits(l: Listing) {
    l.version < MAX_I32 && |l.rows| <= MAX_I32
  }

  /** There are numbers left for some more versions. */
  predicate FitsFor(l: Listing, pushes: nat) {
    l.version + pushes < MAX_I32 && |l.rows| <= MAX_I32
  }

  /** The new state after `canon` was pushed; None when nothing projects. */
  function PushCanon(l: Listing, canon: Json): Option<Listing> {
    match DecodeList(canon)
    case None => None
    case Some(raw) =>
      if raw.steps.None? then None
      else Some(Listing(l.version + 1, UpdateMeta(l.meta, raw), ProjRows(ParseSteps(raw.steps.value), l.rows)))
  }

  /** The canon without the number that every version changes. */
  predicate SameCanon(a: Listing, b: Listing) {
    CanonOf(a.(version := 0)) == CanonOf(b.(version := 0))
  }

  // ---- equal canons are canons that read alike ------------------------------------------------

  lemma SameSeenRefs(a: seq<StepRef>, b: seq<StepRef>)
    requires SeenRefs(a) == SeenRefs(b)
    ensures a == b
  {
    forall i | 0 <= i < |a| ensures a[i] == b[i] {
      assert SeenRefs(a)[i] == SeenRefs(b)[i];
    }
  }

  lemma SameSeenStep(a: SerStep, b: SerStep)
    requires SeenStep(a) == SeenStep(b)
    ensures EncodeStep(a) == EncodeStep(b)
  {
    SameSeenRefs(a.refs, b.refs);
    assert IsStepBlock(a) <==> SeenStep(a).blockType.None?;
    assert IsStepBlock(b) <==> SeenStep(b).blockType.None?;
    assert StepEntries(a) == StepEntries(b);
  }

  lemma SameCanonIsSameReading(a: Listing, b: Listing)
    requires |a.rows| <= MAX_I32 && |b.rows| <= MAX_I32
    ensures SameCanon(a, b) <==> SeenList(Current(a.(version := 0))) == SeenList(Current(b.(version := 0)))
  {
    var v, w := Current(a.(version := 0)), Current(b.(version := 0));
    DecodePrinted(v);
    DecodePrinted(w);
    if SeenList(v) == SeenList(w) {
      assert SeenSteps(v.steps) == SeenSteps(w.steps);
      forall i | 0 <= i < |v.steps| ensures EncodeStep(v.steps[i]) == EncodeStep(w.steps[i]) {
        assert SeenSteps(v.steps)[i] == SeenSteps(w.steps)[i];
        SameSeenStep(v.steps[i], w.steps[i]);
      }
      assert EncodeSteps(v.steps) == EncodeSteps(w.steps);
      assert ListEntries(v) == ListEntries(w);
    }
  }

  // ---- one row, printed and pushed back -------------------------------------------------------

  /** Does the row survive the soft reading of its own canon? */
  predicate Kept(r: StepRow) {
    IsStepType(r.blockType) ==> !Blank(r.title)
  }

  function KeptRows(rows: seq<StepRow>): (k: seq<StepRow>)
    ensures |k| <= |rows|
    ensures forall r :: r in k ==> Kept(r) && r in rows
  {
    if rows == [] then []
    else KeptRows(rows[..|rows| - 1]) + (if Kept(rows[|rows| - 1]) then [rows[|rows| - 1]] else [])
  }

  function CarryOf(current: seq<StepRow>, r: StepRow): Marks {
    if r.blockId.Some? then MarksFor(current, r.blockId.value) else NO_MARKS
  }

  /** The marks a row has after its canon was pushed over a version that keeps `carry` for its block. */
  function Remark(m: Marks, carry: Marks): Marks {
    Marks(m.needsHuman || carry.needsHuman,
          if m.needsHuman then Trim(m.needsHumanAsk) else carry.needsHumanAsk,
          if ShownImage(m.imageKey).Some? then ShownImage(m.imageKey) else carry.imageKey,
          m.danger || carry.danger)
  }

  /** The row a kept row becomes. */
  function Repush(r: StepRow, current: seq<StepRow>): StepRow {
    var m := Remark(MarksOf(r), CarryOf(current, r));
    StepRow(StorageType(r.blockType), if IsStepType(r.blockType) then EMPTY_OBJECT else r.content, r.blockId,
            Trim(r.title), Trim(r.desc), Trim(r.command), m.imageKey, r.level, Trim(r.why), Trim(r.section),
            CleanSubtasks(NonEmpty(r.subtasks)), CleanRefs(r.refs), m.needsHuman, m.needsHumanAsk, m.danger)
  }

  function RepushAll(rows: seq<StepRow>, current: seq<StepRow>): (r: seq<StepRow>)
    ensures |r| == |rows|
    ensures forall i :: 0 <= i < |rows| ==> r[i] == Repush(rows[i], current)
  {
    seq(|rows|, i requires 0 <= i < |rows| => Repush(rows[i], current))
  }

  lemma {:induction false} LiveRefsOfLive(refs: seq<StepRef>)
    requires forall i :: 0 <= i < |refs| ==> KeepsRef(refs[i].caption, refs[i].url)
    ensures LiveRefs(refs) == refs
  {
    if refs != [] {
      LiveRefsOfLive(refs[..|refs| - 1]);
      assert refs == refs[..|refs| - 1] + [refs[|refs| - 1]];
    }
  }

  lemma RefsSeenAndRead(refs: seq<StepRef>)
    ensures RefsOf(SeenRefs(refs)) == refs
  {
  }

  lemma CleanRefLives(r: StepRef)
    requires KeepsRef(r.caption, r.url)
    ensures KeepsRef(CleanRef(r).caption, CleanRef(r).url) && CleanRef(CleanRef(r)) == CleanRef(r)
  {
    TrimIdempotent(r.caption);
    if r.url.Some? {
      TrimIdempotent(r.url.value);
    }
  }

  lemma ImageShownTwice(key: Option<string>)
    ensures ShownImage(ShownImage(key)) == ShownImage(key)
    ensures ShownImage(key).Some? ==> !Blank(ShownImage(key).value) && Trimmed(ShownImage(key).value)
  {
    if key.Some? {
      TrimIdempotent(key.value);
    }
  }

  /** Reading a row's own print and writing it back is exactly `Repush`. */
  lemma RowPushedBack(n: int, r: StepRow, current: seq<StepRow>)
    ensures Drops(SeenStep(LoadStep(n, r))) <==> !Kept(r)
    ensures ProjStepRow(ParseStep(SeenStep(LoadStep(n, r))), current) == Repush(r, current)
  {
    hide Trim, Dec, ParseDec, MarksFor, NonEmpty, CleanSubtasks;
    var s := SeenStep(LoadStep(n, r));
    LevelRoundTrip(r.level);
    LiveRefsOfLive(LiveRefs(r.refs));
    RefsSeenAndRead(LiveRefs(r.refs));
    assert ParseStep(s).refs == LiveRefs(r.refs);
    assert CleanRefs(ParseStep(s).refs) == CleanRefs(r.refs);
    ImageShownTwice(r.imageKey);
    if r.blockId.Some? {
      UuidRoundTrip(r.blockId.value);
    }
  }

  lemma {:induction false} RowsPushedBack(rows: seq<StepRow>, current: seq<StepRow>)
    ensures ProjRows(ParseSteps(SeenSteps(LoadSteps(rows))), current) == RepushAll(KeptRows(rows), current)
  {
    hide Trim, ParseStep, ProjStepRow, Repush, SeenStep, LoadStep, Kept, Drops;
    if rows != [] {
      var front, last := rows[..|rows| - 1], rows[|rows| - 1];
      RowsPushedBack(front, current);
      assert SeenSteps(LoadSteps(rows))[..|rows| - 1] == SeenSteps(LoadSteps(front));
      RowPushedBack(|rows|, last, current);
    }
  }

  /** Pushing a list's own canon always projects, and this is the state it leaves. */
  lemma OwnCanonPushed(l: Listing)
    requires Fits(l)
    ensures PushCanon(l, CanonOf(l))
         == Some(Listing(l.version + 1, UpdateMeta(l.meta, SeenList(Current(l))), RepushAll(KeptRows(l.rows), l.rows)))
  {
    hide Trim, DecodeList, ListJson, ProjStepRow, ParseSteps, UpdateMeta, Repush, KeptRows, SeenSteps, LoadSteps;
    DecodePrinted(Current(l));
    RowsPushedBack(l.rows, l.rows);
  }

  function PushedBack(l: Listing): (r: Listing)
    requires Fits(l)
    ensures r.version == l.version + 1 && |r.rows| <= |l.rows|
  {
    OwnCanonPushed(l);
    PushCanon(l, CanonOf(l)).value
  }

  // ---- the fixed point ------------------------------------------------------------------------

  predicate TrimmedRef(r: StepRef) {
    Trimmed(r.caption) && (r.url.Some? ==> r.url.value != "" && Trimmed(r.url.value))
  }

  /** Marks that pushing back does not change: what is shown is trimmed, and nothing hidden is carried in. */
  predicate SettledMarks(m: Marks, carry: Marks) {
    && (ShownImage(m.imageKey).Some? || ShownImage(carry.imageKey).None?)
    && (if m.needsHuman then Trimmed(m.needsHumanAsk) else !carry.needsHuman)
    && (m.danger || !carry.danger)
  }

  predicate NormalRow(r: StepRow, current: seq<StepRow>) {
    && Trimmed(r.title) && Trimmed(r.desc) && Trimmed(r.command) && Trimmed(r.why) && Trimmed(r.section)
    && (forall i :: 0 <= i < |NonEmpty(r.subtasks)| ==> Trimmed(NonEmpty(r.subtasks)[i]))
    && (forall i :: 0 <= i < |LiveRefs(r.refs)| ==> TrimmedRef(LiveRefs(r.refs)[i]))
    && SettledMarks(MarksOf(r), CarryOf(current, r))
  }

  predicate NormalMeta(m: Meta) {
    (Blank(m.title) || Trimmed(m.title)) && Trimmed(m.desc) && |m.tags| <= 20
  }

  /** A list in normal form: trimmed, every step titled, no mark of a block repeated unevenly. */
  predicate Normal(l: Listing) {
    && NormalMeta(l.meta)
    && forall r :: r in l.rows ==> Kept(r) && NormalRow(r, l.rows)
  }

  lemma {:induction false} NonEmptyOfClean(xs: seq<string>)
    requires forall i :: 0 <= i < |xs| ==> xs[i] != ""
    ensures NonEmpty(xs) == xs
  {
    if xs != [] {
      NonEmptyOfClean(xs[..|xs| - 1]);
      assert xs == xs[..|xs| - 1] + [xs[|xs| - 1]];
    }
  }

  lemma {:induction false} CleanSubtasksFixed(xs: seq<string>)
    requires forall i :: 0 <= i < |xs| ==> xs[i] != ""
    ensures CleanSubtasks(xs) == xs <==> forall i :: 0 <= i < |xs| ==> Trimmed(xs[i])
  {
    hide TrimStart, TrimEnd;
    if xs != [] {
      var front, last := xs[..|xs| - 1], xs[|xs| - 1];
      assert xs == front + [last];
      CleanSubtasksFixed(front);
      if Blank(last) {
        assert |CleanSubtasks(xs)| < |xs| && !Trimmed(last);
      } else if CleanSubtasks(xs) == xs {
        assert CleanSubtasks(front) == CleanSubtasks(xs)[..|xs| - 1] == front;
      }
    }
  }

  lemma CleanRefsFixed(refs: seq<StepRef>)
    ensures LiveRefs(CleanRefs(refs)) == CleanRefs(refs)
    ensures CleanRefs(refs) == LiveRefs(refs) <==> forall i :: 0 <= i < |LiveRefs(refs)| ==> TrimmedRef(LiveRefs(refs)[i])
  {
    hide TrimStart, TrimEnd;
    var live, clean := LiveRefs(refs), CleanRefs(refs);
    forall i | 0 <= i < |clean| ensures KeepsRef(clean[i].caption, clean[i].url) {
      CleanRefLives(live[i]);
    }
    LiveRefsOfLive(clean);
    forall i | 0 <= i < |live| ensures clean[i] == live[i] <==> TrimmedRef(live[i]) {
      if live[i].url.Some? {
        TrimIdempotent(live[i].url.value);
      }
    }
  }

  /** What a reader sees of the lists of a row after it was pushed back. */
  lemma ReseenLists(r: StepRow, current: seq<StepRow>)
    ensures NonEmpty(Repush(r, current).subtasks) == CleanSubtasks(NonEmpty(r.subtasks))
    ensures LiveRefs(Repush(r, current).refs) == CleanRefs(r.refs)
  {
    NonEmptyOfClean(CleanSubtasks(NonEmpty(r.subtasks)));
    CleanRefsFixed(r.refs);
  }

  lemma ReseenMarks(m: Marks, carry: Marks)
    ensures SettledMarks(m, carry) <==>
            && ShownImage(Remark(m, carry).imageKey) == ShownImage(m.imageKey)
            && Remark(m, carry).needsHuman == m.needsHuman
            && (m.needsHuman ==> Remark(m, carry).needsHumanAsk == m.needsHumanAsk)
            && Remark(m, carry).danger == m.danger
  {
    ImageShownTwice(m.imageKey);
  }

  /** A kept row reads the same after the push exactly when it was normal. */
  lemma RowFixed(n: int, r: StepRow, current: seq<StepRow>)
    ensures SeenStep(LoadStep(n, Repush(r, current))) == SeenStep(LoadStep(n, r)) <==> NormalRow(r, current)
  {
    hide Trim, MarksFor, NonEmpty, CleanSubtasks, LiveRefs, CleanRefs, Remark, SettledMarks, FormatUuid;
    var before, after := SeenStep(LoadStep(n, r)), SeenStep(LoadStep(n, Repush(r, current)));
    ReseenLists(r, current);
    ReseenMarks(MarksOf(r), CarryOf(current, r));
    CleanSubtasksFixed(NonEmpty(r.subtasks));
    CleanRefsFixed(r.refs);
    assert after.refs == before.refs <==> CleanRefs(r.refs) == LiveRefs(r.refs) by {
      if SeenRefs(CleanRefs(r.refs)) == SeenRefs(LiveRefs(r.refs)) {
        SameSeenRefs(CleanRefs(r.refs), LiveRefs(r.refs));
      }
    }
    assert after.n == before.n && after.blockId == before.blockId && after.blockType == before.blockType
        && after.content == before.content && after.level == before.level;
  }

  lemma {:induction false} KeptRowsAll(rows: seq<StepRow>)
    ensures |KeptRows(rows)| == |rows| <==> forall r :: r in rows ==> Kept(r)
    ensures |KeptRows(rows)| == |rows| ==> KeptRows(rows) == rows
  {
    if rows != [] {
      var front, last := rows[..|rows| - 1], rows[|rows| - 1];
      assert rows == front + [last];
      KeptRowsAll(front);
    }
  }

  lemma RowsFixed(rows: seq<StepRow>)
    ensures SeenSteps(LoadSteps(RepushAll(KeptRows(rows), rows))) == SeenSteps(LoadSteps(rows))
       <==> forall r :: r in rows ==> Kept(r) && NormalRow(r, rows)
  {
    hide NormalRow, Kept, KeptRows, SeenStep, LoadStep, Repush;
    var before, after := SeenSteps(LoadSteps(rows)), SeenSteps(LoadSteps(RepushAll(KeptRows(rows), rows)));
    KeptRowsAll(rows);
    if |KeptRows(rows)| == |rows| {
      forall i | 0 <= i < |rows| ensures after[i] == before[i] <==> NormalRow(rows[i], rows) {
        RowFixed(i + 1, rows[i], rows);
      }
      if after == before {
        forall r | r in rows ensures NormalRow(r, rows) {
          var i :| 0 <= i < |rows| && rows[i] == r;
          assert after[i] == before[i];
        }
      }
    } else {
      assert |after| != |before|;
    }
  }

  lemma HeaderFixed(h: Option<Json>)
    ensures ShownHeader(ShownHeader(h)) == ShownHeader(h)
    ensures ShownHeader(h).Some? ==> ShownHeader(h).value != EMPTY_OBJECT
  {
    if ShownHeader(h).Some? {
      SkillHeaderIdempotent(h.value);
    }
  }

  lemma MetaFixed(l: Listing, m: Meta)
    requires m == UpdateMeta(l.meta, SeenList(Current(l)))
    ensures m.title == l.meta.title && m.desc == l.meta.desc && m.tags == l.meta.tags <==> NormalMeta(l.meta)
    ensures ValidKind(m.kind) == ValidKind(l.meta.kind) && m.ordered == l.meta.ordered
    ensures ShownHeader(m.skillHeader) == ShownHeader(l.meta.skillHeader)
    ensures NormalMeta(m)
  {
    HeaderFixed(l.meta.skillHeader);
    TrimIdempotent(l.meta.title);
    TrimIdempotent(l.meta.desc);
  }

  /** Pushing `list_json(V)` unchanged reproduces the canon of V up to its number exactly when V is in normal form. */
  lemma CanonFixedPoint(l: Listing)
    requires Fits(l)
    ensures SameCanon(l, PushedBack(l)) <==> Normal(l)
  {
    hide Trim, DecodeList, ListJson, NormalRow, Kept, SkillHeaderValid, UpdateMeta, SeenSteps, LoadSteps, RepushAll, KeptRows;
    OwnCanonPushed(l);
    var w := PushedBack(l);
    SameCanonIsSameReading(l, w);
    RowsFixed(l.rows);
    MetaFixed(l, w.meta);
    var a, b := SeenList(Current(l.(version := 0))), SeenList(Current(w.(version := 0)));
    HeaderFixed(l.meta.skillHeader);
    HeaderFixed(w.meta.skillHeader);
    assert a.skillHeader == b.skillHeader && a.kind == b.kind && a.ordered == b.ordered;
    assert a == b <==> a.title == b.title && a.desc == b.desc && a.tags == b.tags && a.steps == b.steps;
  }

  // ---- the second push ------------------------------------------------------------------------

  /** For one kept row: `last` are the marks of the last row of its block in the list,
      `lastKept` those of the last row of its block that survives the push. */
  predicate StableRow(m: Marks, last: Marks, lastKept: Marks) {
    && (ShownImage(m.imageKey).Some? || ShownImage(last.imageKey).Some? || ShownImage(lastKept.imageKey).None?)
    && (m.needsHuman || (if last.needsHuman then Trimmed(last.needsHumanAsk) else !lastKept.needsHuman))
    && (m.danger || last.danger || !lastKept.danger)
  }

  predicate StableMarks(l: Listing) {
    forall r :: r in KeptRows(l.rows) && r.blockId.Some? ==>
      StableRow(MarksOf(r), CarryOf(l.rows, r), CarryOf(KeptRows(l.rows), r))
  }

  predicate HasBlock(rows: seq<StepRow>, id: Uuid) {
    exists r :: r in rows && r.blockId == Some(id)
  }

  lemma {:induction false} MarksAfterPush(rows: seq<StepRow>, current: seq<StepRow>, id: Uuid)
    requires HasBlock(rows, id)
    ensures MarksFor(RepushAll(rows, current), id) == Remark(MarksFor(rows, id), MarksFor(current, id))
  {
    var front, last := rows[..|rows| - 1], rows[|rows| - 1];
    assert rows == front + [last];
    assert RepushAll(rows, current)[..|rows| - 1] == RepushAll(front, current);
    if last.blockId != Some(id) {
      MarksAfterPush(front, current, id);
    }
  }

  lemma PushedRowIsNormal(r: StepRow, current: seq<StepRow>, next: seq<StepRow>)
    requires Kept(r)
    ensures Kept(Repush(r, current))
    ensures NormalRow(Repush(r, current), next) <==> SettledMarks(MarksOf(Repush(r, current)), CarryOf(next, r))
  {
    hide Trim, MarksFor, NonEmpty, CleanSubtasks, LiveRefs, CleanRefs, Remark, SettledMarks;
    TrimIdempotent(r.title);
    TrimIdempotent(r.desc);
    TrimIdempotent(r.command);
    TrimIdempotent(r.why);
    TrimIdempotent(r.section);
    ReseenLists(r, current);
    forall i | 0 <= i < |CleanRefs(r.refs)| ensures TrimmedRef(CleanRefs(r.refs)[i]) {
      var live := LiveRefs(r.refs)[i];
      TrimIdempotent(live.caption);
      if live.url.Some? {
        TrimIdempotent(live.url.value);
      }
    }
  }

  lemma MarksOfRepushed(r: StepRow, current: seq<StepRow>)
    ensures MarksOf(Repush(r, current)) == Remark(MarksOf(r), CarryOf(current, r))
    ensures Repush(r, current).blockId == r.blockId
  {
  }

  lemma SettledAfterPush(m: Marks, last: Marks, lastKept: Marks)
    ensures SettledMarks(Remark(m, last), Remark(lastKept, last)) <==> StableRow(m, last, lastKept)
  {
    ImageShownTwice(m.imageKey);
    ImageShownTwice(lastKept.imageKey);
    TrimIdempotent(m.needsHumanAsk);
  }

  lemma SettledAlone(m: Marks)
    ensures SettledMarks(Remark(m, NO_MARKS), NO_MARKS)
  {
    TrimIdempotent(m.needsHumanAsk);
  }

  /** A pushed list is in normal form exactly when the marks of the original were stable. */
  lemma PushedIsNormal(l: Listing)
    requires Fits(l)
    ensures Fits(PushedBack(l).(version := 0))
    ensures Normal(PushedBack(l)) <==> StableMarks(l)
  {
    hide Trim, DecodeList, ListJson, NormalRow, Kept, StableRow, KeptRows, Repush, MarksFor, UpdateMeta, NormalMeta;
    OwnCanonPushed(l);
    var kept, w := KeptRows(l.rows), PushedBack(l);
    MetaFixed(l, w.meta);
    forall i | 0 <= i < |kept|
      ensures Kept(w.rows[i]) && (NormalRow(w.rows[i], w.rows) <==>
              (kept[i].blockId.Some? ==> StableRow(MarksOf(kept[i]), CarryOf(l.rows, kept[i]), CarryOf(kept, kept[i]))))
    {
      var r := kept[i];
      PushedRowIsNormal(r, l.rows, w.rows);
      MarksOfRepushed(r, l.rows);
      if r.blockId.Some? {
        assert HasBlock(kept, r.blockId.value);
        MarksAfterPush(kept, l.rows, r.blockId.value);
        SettledAfterPush(MarksOf(r), CarryOf(l.rows, r), CarryOf(kept, r));
      } else {
        SettledAlone(MarksOf(r));
      }
    }
    if Normal(w) {
      forall r | r in kept && r.blockId.Some? ensures StableRow(MarksOf(r), CarryOf(l.rows, r), CarryOf(kept, r)) {
        var i :| 0 <= i < |kept| && kept[i] == r;
        assert w.rows[i] in w.rows;
      }
    }
    if StableMarks(l) {
      forall r | r in w.rows ensures Kept(r) && NormalRow(r, w.rows) {
        var i :| 0 <= i < |w.rows| && w.rows[i] == r;
        assert kept[i] in kept;
      }
    }
  }

  /** The second push of a list's own canon changes nothing exactly when its marks are stable. */
  lemma SecondPushChangesNothing(l: Listing)
    requires FitsFor(l, 1)
    ensures SameCanon(PushedBack(l), PushedBack(PushedBack(l))) <==> StableMarks(l)
  {
    hide Trim, DecodeList, ListJson, UpdateMeta, SameCanon, PushCanon, KeptRows, StableMarks, Normal, MarksFor, RepushAll;
    PushedIsNormal(l);
    CanonFixedPoint(PushedBack(l));
  }

  predicate UniqueBlocks(rows: seq<StepRow>) {
    forall i, j :: 0 <= i < j < |rows| && rows[i].blockId.Some? ==> rows[i].blockId != rows[j].blockId
  }

  lemma {:induction false} MarksOfOnlyRow(rows: seq<StepRow>, i: nat)
    requires UniqueBlocks(rows) && i < |rows| && rows[i].blockId.Some?
    ensures MarksFor(rows, rows[i].blockId.value) == MarksOf(rows[i])
  {
    if i < |rows| - 1 {
      MarksOfOnlyRow(rows[..|rows| - 1], i);
    }
  }

  lemma {:induction false} KeptRowsUnique(rows: seq<StepRow>)
    requires UniqueBlocks(rows)
    ensures UniqueBlocks(KeptRows(rows))
  {
    if rows != [] {
      var front, last := rows[..|rows| - 1], rows[|rows| - 1];
      KeptRowsUnique(front);
      forall i | 0 <= i < |KeptRows(front)| && KeptRows(front)[i].blockId.Some?
        ensures KeptRows(front)[i].blockId != last.blockId
      {
        assert KeptRows(front)[i] in front;
      }
    }
  }

  /** Unique block ids are enough: then one push brings the list to its fixed point. */
  lemma UniqueBlocksSettleAtOnce(l: Listing)
    requires FitsFor(l, 1) && UniqueBlocks(l.rows)
    ensures SameCanon(PushedBack(l), PushedBack(PushedBack(l)))
  {
    hide SameCanon, PushedBack, KeptRows;
    var kept := KeptRows(l.rows);
    KeptRowsUnique(l.rows);
    forall r | r in kept && r.blockId.Some? ensures StableRow(MarksOf(r), CarryOf(l.rows, r), CarryOf(kept, r)) {
      var i :| 0 <= i < |kept| && kept[i] == r;
      MarksOfOnlyRow(kept, i);
      var j :| 0 <= j < |l.rows| && l.rows[j] == r;
      MarksOfOnlyRow(l.rows, j);
    }
    SecondPushChangesNothing(l);
  }

  /** After a push no row is dropped any more. */
  lemma PushedRowsAreKept(l: Listing)
    requires Fits(l)
    ensures PushedBack(l).rows == RepushAll(KeptRows(l.rows), l.rows)
    ensures KeptRows(PushedBack(l).rows) == PushedBack(l).rows
  {
    hide Trim, DecodeList, ListJson, Repush, UpdateMeta, KeptRows, Kept;
    OwnCanonPushed(l);
    var kept, w := KeptRows(l.rows), PushedBack(l);
    forall r | r in w.rows ensures Kept(r) {
      var i :| 0 <= i < |w.rows| && w.rows[i] == r;
      assert kept[i] in kept;
      PushedRowIsNormal(kept[i], l.rows, w.rows);
    }
    KeptRowsAll(w.rows);
  }

  lemma RemarkedIsStable(m: Marks, last: Marks, lastKept: Marks)
    ensures StableRow(Remark(m, last), Remark(lastKept, last), Remark(lastKept, last))
  {
    hide TrimStart, TrimEnd;
    TrimIdempotent(lastKept.needsHumanAsk);
    ImageShownTwice(lastKept.imageKey);
  }

  /** For any list at all, the third push changes nothing: after the first one no row is dropped any more. */
  lemma ThirdPushChangesNothing(l: Listing)
    requires FitsFor(l, 2)
    ensures SameCanon(PushedBack(PushedBack(l)), PushedBack(PushedBack(PushedBack(l))))
  {
    hide Trim, DecodeList, ListJson, Repush, KeptRows, UpdateMeta, MarksFor, StableRow, Remark, SameCanon, PushCanon;
    PushedRowsAreKept(l);
    var kept, w := KeptRows(l.rows), PushedBack(l);
    forall r | r in w.rows && r.blockId.Some? ensures StableRow(MarksOf(r), CarryOf(w.rows, r), CarryOf(w.rows, r)) {
      var i :| 0 <= i < |w.rows| && w.rows[i] == r;
      MarksOfRepushed(kept[i], l.rows);
      assert HasBlock(kept, r.blockId.value);
      MarksAfterPush(kept, l.rows, r.blockId.value);
      RemarkedIsStable(MarksOf(kept[i]), CarryOf(l.rows, kept[i]), CarryOf(kept, kept[i]));
    }
    SecondPushChangesNothing(w);
  }

  // ---- where one push is not enough -----------------------------------------------------------

  function Row(blockId: Uuid, title: string, danger: bool): StepRow {
    StepRow("step", EMPTY_OBJECT, Some(blockId), title, "", "", None, Required, "", "", [], [], false, "", danger)
  }

  const TRIPLE: seq<StepRow> := [Row(7, "a", false), Row(7, "b", true), Row(7, "", false)]
  const UNSTABLE := Listing(1, Meta("L", "", [], true, None, None), TRIPLE)

  lemma TripleKept()
    ensures KeptRows(TRIPLE) == [Row(7, "a", false), Row(7, "b", true)]
    ensures MarksFor(TRIPLE, 7) == Marks(false, "", None, false)
    ensures MarksFor(KeptRows(TRIPLE), 7) == Marks(false, "", None, true)
  {
    var a, b := Row(7, "a", false), Row(7, "b", true);
    assert TRIPLE[..2] == [a, b] && [a, b][..1] == [a] && [a][..0] == [];
    assert KeptRows([a]) == [a];
    assert KeptRows([a, b]) == [a, b];
  }

  /** Three rows of one block; the last is untitled, so the first push drops it and the second push
      carries the danger mark of the middle row over to the first one. */
  lemma SecondPushCanChange()
    ensures FitsFor(UNSTABLE, 1)
    ensures !SameCanon(PushedBack(UNSTABLE), PushedBack(PushedBack(UNSTABLE)))
  {
    hide Trim, DecodeList, ListJson, Repush, UpdateMeta, SameCanon, PushCanon, KeptRows, MarksFor;
    OwnCanonPushed(UNSTABLE);
    TripleKept();
    var first := KeptRows(UNSTABLE.rows)[0];
    assert first in KeptRows(UNSTABLE.rows);
    assert !StableRow(MarksOf(first), CarryOf(UNSTABLE.rows, first), CarryOf(KeptRows(UNSTABLE.rows), first));
    SecondPushChangesNothing(UNSTABLE);
  }
}
