/** Remediating stories and undoing it (apps/api/scripts/story_narrative_audit.py): one table of
    stories, changed row by row, with the pre-image of every touched row kept beside it.
 */
module StoryRemediation {
  import opened Shared

  type StoryId = nat
  type Batch = nat
  type AchievementKey = string

  datatype Field = Title | Situation | Task | Action | Result

  type Star = map<Field, string>

  datatype Content = Content(star: Star, metrics: Option<map<string, string>>, tags: Option<seq<string>>)

  /** `metrics or {}`, `tags or []` */
  function Normal(c: Content): Content {
    Content(c.star, Some(if c.metrics.Some? then c.metrics.value else map[]),
            Some(if c.tags.Some? then c.tags.value else []))
  }

  datatype Snapshot = Snapshot(batch: Batch, before: Content)

  datatype Story = Story(content: Content, contentHash: Option<int>, key: Option<AchievementKey>, live: bool,
                         snapshot: Option<Snapshot>)

  type Stories = map<StoryId, Story>

  predicate IsFrom(s: Story, batch: Batch) {
    s.snapshot.Some? && s.snapshot.value.batch == batch
  }

  // ------------------------------------------------------------------ remediation

  datatype Verdict = Clean | Unanchored | Archive | Strip

  /** `grounded` is the live guard's telling of the row; the other two are what the audit found. */
  datatype Finding = Finding(id: StoryId, verdict: Verdict, grounded: Star, unevidenced: set<string>, foreign: set<string>)

  datatype Patch = Patch(star: Star, metrics: Option<map<string, string>>, tags: Option<seq<string>>)

  /** The single statements a remediation sends, each committed on its own. */
  datatype Write =
    | ArchiveRow(id: StoryId, snapshot: Snapshot)
    | SnapshotRow(id: StoryId, snapshot: Snapshot)
    | PatchRow(id: StoryId, patch: Patch)

  function Without(tags: seq<string>, foreign: set<string>): (kept: seq<string>)
    ensures forall t :: t in kept <==> t in tags && t !in foreign
  {
    if tags == [] then []
    else
      var rest, last := Without(tags[..|tags| - 1], foreign), tags[|tags| - 1];
      assert forall t :: t in tags <==> t in tags[..|tags| - 1] || t == last;
      if last in foreign then rest else rest + [last]
  }

  function OrNoMetrics(c: Content): map<string, string> {
    if c.metrics.Some? then c.metrics.value else map[]
  }

  function OrNoTags(c: Content): seq<string> {
    if c.tags.Some? then c.tags.value else []
  }

  function PatchFor(c: Content, f: Finding, evident: (string, string) -> bool): Patch {
    Patch(map n | n in f.grounded && !(n in c.star && c.star[n] == f.grounded[n]) :: f.grounded[n],
          if f.unevidenced == {} then None
          else Some(map k | k in OrNoMetrics(c) && evident(k, OrNoMetrics(c)[k]) && k !in f.unevidenced :: OrNoMetrics(c)[k]),
          if f.foreign == {} then None else Some(Without(OrNoTags(c), f.foreign)))
  }

  function Hash(digest: Star -> int, s: Story, patch: Patch): Option<int> {
    if patch.star == map[] then s.contentHash else Some(digest(s.content.star + patch.star))
  }

  /** StoryRepository.update on a live row. */
  function Patched(digest: Star -> int, s: Story, patch: Patch): Story {
    s.(content := Content(s.content.star + patch.star,
                          if patch.metrics.Some? then patch.metrics else s.content.metrics,
                          if patch.tags.Some? then patch.tags else s.content.tags),
       contentHash := Hash(digest, s, patch))
  }

  /** Every statement only touches live rows. */
  function Written(rows: Stories, digest: Star -> int, w: Write): Stories {
    if w.id !in rows || !rows[w.id].live then rows
    else
      match w
      case ArchiveRow(id, snapshot) => rows[id := rows[id].(live := false, snapshot := Some(snapshot))]
      case SnapshotRow(id, snapshot) => rows[id := rows[id].(snapshot := Some(snapshot))]
      case PatchRow(id, patch) => rows[id := Patched(digest, rows[id], patch)]
  }

  function AllWritten(rows: Stories, digest: Star -> int, ws: seq<Write>): Stories {
    if ws == [] then rows else Written(AllWritten(rows, digest, ws[..|ws| - 1]), digest, ws[|ws| - 1])
  }

  function WritesFor(read: Stories, evident: (string, string) -> bool, f: Finding, batch: Batch): seq<Write>
    requires f.id in read
  {
    var row := read[f.id];
    match f.verdict
    case Archive => [ArchiveRow(f.id, Snapshot(batch, row.content))]
    case Strip => [SnapshotRow(f.id, Snapshot(batch, row.content)), PatchRow(f.id, PatchFor(row.content, f, evident))]
    case _ => []
  }

  function Writes(read: Stories, evident: (string, string) -> bool, findings: seq<Finding>, batch: Batch): seq<Write>
    requires forall f | f in findings :: f.id in read
  {
    if findings == [] then []
    else Writes(read, evident, findings[..|findings| - 1], batch)
         + WritesFor(read, evident, findings[|findings| - 1], batch)
  }

  // ---------------------------------------------------------------------- restore

  function LiveKeys(rows: Stories): set<AchievementKey> {
    set id | id in rows && rows[id].live && rows[id].key.Some? :: rows[id].key.value
  }

  predicate Blocked(rows: Stories, id: StoryId)
    requires id in rows
  {
    !rows[id].live && rows[id].key.Some? && rows[id].key.value in LiveKeys(rows)
  }

  function Back(digest: Star -> int, s: Story): Story
    requires s.snapshot.Some?
  {
    var before := s.snapshot.value.before;
    s.(content := Normal(before), contentHash := Some(digest(before.star)), live := true)
  }

  /** What a restore makes of the table. */
  function Restored(rows: Stories, digest: Star -> int, batch: Batch): Stories {
    map id | id in rows :: if IsFrom(rows[id], batch) && !Blocked(rows, id) then Back(digest, rows[id]) else rows[id]
  }

  class StoryBank {
    var rows: Stories

    constructor (rows: Stories)
      ensures this.rows == rows
    {
      this.rows := rows;
    }

    method Send(digest: Star -> int, w: Write)
      modifies this
      ensures rows == Written(old(rows), digest, w)
    {
      rows := Written(rows, digest, w);
    }

    /** What one finding asks for. */
    method RemediateRow(digest: Star -> int, evident: (string, string) -> bool, read: Stories, f: Finding, batch: Batch)
      requires f.id in read
      modifies this
      ensures rows == AfterFinding(old(rows), digest, evident, read, f, batch)
    {
      if f.verdict == Archive {
        Send(digest, ArchiveRow(f.id, Snapshot(batch, read[f.id].content)));
        return;
      }
      if f.verdict != Strip {
        return;
      }
      var patch := PatchFor(read[f.id].content, f, evident);
      Send(digest, SnapshotRow(f.id, Snapshot(batch, read[f.id].content)));
      Send(digest, PatchRow(f.id, patch));
    }

    /** _remediate: `findings` were made from `read`, the live rows of a moment before. */
    method Remediate(digest: Star -> int, evident: (string, string) -> bool, read: Stories, findings: seq<Finding>,
                     batch: Batch)
      returns (archived: nat, stripped: nat)
      requires forall f | f in findings :: f.id in read
      modifies this
      ensures rows == AllWritten(old(rows), digest, Writes(read, evident, findings, batch))
      ensures archived == CountOf(findings, Archive) && stripped == CountOf(findings, Strip)
    {
      archived, stripped := 0, 0;
      for i := 0 to |findings|
        invariant rows == AllWritten(old(rows), digest, Writes(read, evident, findings[..i], batch))
        invariant archived == CountOf(findings[..i], Archive) && stripped == CountOf(findings[..i], Strip)
      {
        NextFinding(old(rows), digest, evident, read, findings, i, batch);
        RemediateRow(digest, evident, read, findings[i], batch);
        if findings[i].verdict == Archive {
          archived := archived + 1;
        } else if findings[i].verdict == Strip {
          stripped := stripped + 1;
        }
      }
      assert findings[..|findings|] == findings;
    }

    /** _restore: `targets` are the rows whose snapshot is of this batch, in query order. */
    method Restore(digest: Star -> int, batch: Batch, targets: seq<StoryId>) returns (restored: nat, blocked: seq<StoryId>)
      requires forall i, j | 0 <= i < j < |targets| :: targets[i] != targets[j]
      requires forall id :: id in targets <==> id in rows && IsFrom(rows[id], batch)
      modifies this
      ensures rows == Restored(old(rows), digest, batch)
      ensures forall id :: id in blocked <==> id in targets && Blocked(old(rows), id)
      ensures restored + |blocked| == |targets|
    {
      var taken := LiveKeys(rows);
      restored, blocked := 0, [];
      for i := 0 to |targets|
        invariant restored + |blocked| == i
        invariant forall id :: id in blocked <==> id in targets[..i] && Blocked(old(rows), id)
        invariant rows.Keys == old(rows).Keys
        invariant forall id | id in rows ::
          rows[id] == if id in targets[..i] && !Blocked(old(rows), id) then Back(digest, old(rows)[id]) else old(rows)[id]
      {
        var id := targets[i];
        assert id !in targets[..i] && id in targets;
        var row := rows[id];
        assert row == old(rows)[id];
        if !row.live && row.key.Some? && row.key.value in taken {
          blocked := blocked + [id];
        } else {
          restored := restored + 1;
          rows := rows[id := Back(digest, row)];
        }
      }
      assert targets[..|targets|] == targets;
    }
  }

  function CountOf(findings: seq<Finding>, v: Verdict): nat {
    if findings == [] then 0
    else CountOf(findings[..|findings| - 1], v) + if findings[|findings| - 1].verdict == v then 1 else 0
  }

  function AfterFinding(t: Stories, digest: Star -> int, evident: (string, string) -> bool, read: Stories, f: Finding,
                        batch: Batch): Stories
    requires f.id in read
  {
    match f.verdict
    case Archive => Written(t, digest, ArchiveRow(f.id, Snapshot(batch, read[f.id].content)))
    case Strip =>
      Written(Written(t, digest, SnapshotRow(f.id, Snapshot(batch, read[f.id].content))), digest,
              PatchRow(f.id, PatchFor(read[f.id].content, f, evident)))
    case _ => t
  }

  lemma NextFinding(rows: Stories, digest: Star -> int, evident: (string, string) -> bool, read: Stories,
                    findings: seq<Finding>, i: nat, batch: Batch)
    requires i < |findings| && forall f | f in findings :: f.id in read
    ensures forall v :: CountOf(findings[..i + 1], v) == CountOf(findings[..i], v) + if findings[i].verdict == v then 1 else 0
    ensures AllWritten(rows, digest, Writes(read, evident, findings[..i + 1], batch))
         == AfterFinding(AllWritten(rows, digest, Writes(read, evident, findings[..i], batch)), digest, evident, read,
                         findings[i], batch)
  {
    assert findings[..i + 1][..i] == findings[..i];
    WrittenInTurn(rows, digest, Writes(read, evident, findings[..i], batch), WritesFor(read, evident, findings[i], batch));
  }

  lemma WrittenInTurn(rows: Stories, digest: Star -> int, ws: seq<Write>, more: seq<Write>)
    requires |more| <= 2
    ensures AllWritten(rows, digest, ws + more)
         == var t := AllWritten(rows, digest, ws);
            if more == [] then t
            else if |more| == 1 then Written(t, digest, more[0])
            else Written(Written(t, digest, more[0]), digest, more[1])
  {
    if more == [] {
      assert ws + more == ws;
    } else if |more| == 1 {
      assert (ws + more)[..|ws|] == ws;
    } else {
      assert (ws + more)[..|ws| + 1] == ws + more[..1];
      assert (ws + more[..1])[..|ws|] == ws;
    }
  }

  // ------------------------------------------------------ a remediation can be undone

  /** The snapshot of a row always goes out before its patch, and holds the row as it was. */
  ghost predicate SnapshotsFirst(read: Stories, ws: seq<Write>, batch: Batch) {
    forall i | 0 <= i < |ws| :: GoesOut(read, ws, batch, i)
  }

  ghost predicate GoesOut(read: Stories, ws: seq<Write>, batch: Batch, i: nat)
    requires i < |ws|
  {
    && ws[i].id in read
    && if ws[i].PatchRow? then i > 0 && ws[i - 1] == SnapshotRow(ws[i].id, Snapshot(batch, read[ws[i].id].content))
       else ws[i].snapshot == Snapshot(batch, read[ws[i].id].content)
  }

  lemma {:induction false} WritesGoOut(read: Stories, evident: (string, string) -> bool, findings: seq<Finding>, batch: Batch)
    requires forall f | f in findings :: f.id in read
    ensures SnapshotsFirst(read, Writes(read, evident, findings, batch), batch)
  {
    if findings != [] {
      WritesGoOut(read, evident, findings[..|findings| - 1], batch);
      var ws := Writes(read, evident, findings[..|findings| - 1], batch);
      var more := WritesFor(read, evident, findings[|findings| - 1], batch);
      forall i | 0 <= i < |ws + more| ensures GoesOut(read, ws + more, batch, i) {
        if i < |ws| {
          assert GoesOut(read, ws, batch, i);
        }
      }
    }
  }

  /** Untouched, or its pre-image is in its snapshot. */
  ghost predicate CanComeBack(was: Story, now: Story, batch: Batch) {
    && now.key == was.key
    && (now == was || now.snapshot == Some(Snapshot(batch, was.content)))
  }

  lemma {:induction false} EveryWriteCanBeUndone(rows: Stories, digest: Star -> int, ws: seq<Write>, batch: Batch)
    requires SnapshotsFirst(rows, ws, batch)
    ensures AllWritten(rows, digest, ws).Keys == rows.Keys
    ensures forall id | id in rows :: CanComeBack(rows[id], AllWritten(rows, digest, ws)[id], batch)
  {
    if ws != [] {
      var n := |ws| - 1;
      assert forall i | 0 <= i < n :: GoesOut(rows, ws, batch, i) ==> GoesOut(rows, ws[..n], batch, i);
      EveryWriteCanBeUndone(rows, digest, ws[..n], batch);
      assert GoesOut(rows, ws, batch, n);
      if ws[n].PatchRow? {
        SnapshotIsThere(AllWritten(rows, digest, ws[..n - 1]), digest, ws[n - 1]);
        assert ws[..n][..n - 1] == ws[..n - 1];
      }
    }
  }

  lemma SnapshotIsThere(rows: Stories, digest: Star -> int, w: Write)
    requires w.SnapshotRow?
    ensures var t := Written(rows, digest, w); w.id in t && t[w.id].live ==> t[w.id].snapshot == Some(w.snapshot)
  {
  }

  /** No two live rows share an achievement key: the partial unique index. */
  ghost predicate Unique(rows: Stories) {
    forall i, j | i in rows && j in rows && rows[i].live && rows[j].live && rows[i].key.Some? && rows[i].key == rows[j].key :: i == j
  }

  /** A remediation cut short after any of its statements and then restored, with no other writer,
      gives back every row's text, metrics, tags and liveness; no row is blocked. */
  lemma InterruptedRemediationIsUndone(rows: Stories, digest: Star -> int, evident: (string, string) -> bool,
                                       findings: seq<Finding>, batch: Batch, done: nat)
    requires Unique(rows)
    requires forall id | id in rows :: !IsFrom(rows[id], batch)
    requires forall f | f in findings :: f.id in rows && rows[f.id].live
    requires done <= |Writes(rows, evident, findings, batch)|
    ensures var cut := AllWritten(rows, digest, Writes(rows, evident, findings, batch)[..done]);
            && var back := Restored(cut, digest, batch);
            && back.Keys == rows.Keys
            && forall id | id in rows ::
                 && !(IsFrom(cut[id], batch) && Blocked(cut, id))
                 && back[id].live == rows[id].live && back[id].key == rows[id].key
                 && (back[id] == rows[id]
                     || (back[id].content == Normal(rows[id].content)
                         && back[id].contentHash == Some(digest(rows[id].content.star))))
  {
    var ws := Writes(rows, evident, findings, batch);
    WritesGoOut(rows, evident, findings, batch);
    assert forall i | 0 <= i < done :: GoesOut(rows, ws, batch, i) ==> GoesOut(rows, ws[..done], batch, i);
    EveryWriteCanBeUndone(rows, digest, ws[..done], batch);
    WritesTouchLiveRows(rows, evident, findings, batch);
    OnlyWrittenRowsMove(rows, digest, ws[..done]);
    var cut := AllWritten(rows, digest, ws[..done]);
    forall id | id in rows && IsFrom(cut[id], batch) ensures rows[id].live && !Blocked(cut, id) {
      assert CanComeBack(rows[id], cut[id], batch);
      NotBlocked(rows, cut, id);
    }
    forall id | id in rows ensures CanComeBack(rows[id], cut[id], batch) && (cut[id] == rows[id] || IsFrom(cut[id], batch)) {
    }
  }

  lemma {:induction false} WritesTouchLiveRows(read: Stories, evident: (string, string) -> bool, findings: seq<Finding>, batch: Batch)
    requires forall f | f in findings :: f.id in read && read[f.id].live
    ensures forall w | w in Writes(read, evident, findings, batch) :: w.id in read && read[w.id].live
  {
    if findings != [] {
      WritesTouchLiveRows(read, evident, findings[..|findings| - 1], batch);
    }
  }

  lemma {:induction false} OnlyWrittenRowsMove(rows: Stories, digest: Star -> int, ws: seq<Write>)
    requires forall w | w in ws :: w.id in rows && rows[w.id].live
    ensures var t := AllWritten(rows, digest, ws);
            && t.Keys == rows.Keys
            && forall id | id in rows :: t[id].key == rows[id].key && (t[id].live ==> rows[id].live)
                                      && (!rows[id].live ==> t[id] == rows[id])
  {
    if ws != [] {
      OnlyWrittenRowsMove(rows, digest, ws[..|ws| - 1]);
      assert ws[|ws| - 1] in ws;
    }
  }

  lemma NotBlocked(rows: Stories, cut: Stories, id: StoryId)
    requires Unique(rows) && cut.Keys == rows.Keys && id in rows && rows[id].live
    requires forall i | i in rows :: cut[i].key == rows[i].key && (cut[i].live ==> rows[i].live)
    ensures !Blocked(cut, id)
  {
    assert forall i | i in cut && cut[i].live && cut[i].key.Some? && cut[i].key == cut[id].key :: i == id;
  }
}
