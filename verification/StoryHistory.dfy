/** Remediations, restores and every other writer of the story table, statement by statement, in
    any order.
 */
module StoryHistory {
  import opened Shared
  import opened StoryRemediation

  /** `targets` is what each batch found live and keyed when it read the table; only such rows can
      cite a resume bullet and be touched. `used` are the ids handed out so far. */
  datatype World = World(rows: Stories, targets: map<Batch, set<StoryId>>, used: set<StoryId>)

  datatype Step =
    | Begin(batch: Batch)
    | Touch(batch: Batch, id: StoryId, before: Content, archive: bool)
    | Restore(batch: Batch)
    // the rest of the application
    | Insert(id: StoryId, content: Content, hash: Option<int>, key: Option<AchievementKey>)
    | Edit(id: StoryId, content: Content, hash: Option<int>)
    | Stamp(id: StoryId, bullet: AchievementKey)
    | Delete(id: StoryId)
    | SetAside(id: StoryId)
    | BringBack(id: StoryId)

  predicate IsLive(rows: Stories, id: StoryId) {
    id in rows && rows[id].live
  }

  function KeyedRows(rows: Stories): set<StoryId> {
    set id | id in rows && rows[id].live && rows[id].key.Some?
  }

  /** The table after a statement, or as it was when the unique index refuses it. */
  ghost function Indexed(before: Stories, after: Stories): Stories {
    if Unique(after) then after else before
  }

  ghost function Next(w: World, digest: Star -> int, s: Step): World {
    match s
    case Begin(b) =>
      if b in w.targets then w else w.(targets := w.targets[b := KeyedRows(w.rows)])
    case Touch(b, id, before, archive) =>
      if b in w.targets && id in w.targets[b] && IsLive(w.rows, id)
      then w.(rows := w.rows[id := w.rows[id].(live := !archive, snapshot := Some(Snapshot(b, before)))])
      else w
    case Restore(b) => w.(rows := Restored(w.rows, digest, b))
    case Insert(id, content, hash, key) =>
      if id in w.used then w
      else World(Indexed(w.rows, w.rows[id := Story(content, hash, key, true, None)]), w.targets, w.used + {id})
    case Edit(id, content, hash) =>
      if IsLive(w.rows, id) then w.(rows := w.rows[id := w.rows[id].(content := content, contentHash := hash)]) else w
    case Stamp(id, key) =>
      if IsLive(w.rows, id) && w.rows[id].key.None?
      then w.(rows := Indexed(w.rows, w.rows[id := w.rows[id].(key := Some(key))]))
      else w
    case Delete(id) => if IsLive(w.rows, id) then w.(rows := w.rows - {id}) else w
    case SetAside(id) =>
      if IsLive(w.rows, id) then w.(rows := w.rows[id := w.rows[id].(live := false, snapshot := None)]) else w
    case BringBack(id) =>
      if id in w.rows then w.(rows := Indexed(w.rows, w.rows[id := w.rows[id].(live := true)])) else w
  }

  ghost function After(w: World, digest: Star -> int, steps: seq<Step>): World {
    if steps == [] then w else Next(After(w, digest, steps[..|steps| - 1]), digest, steps[|steps| - 1])
  }

  /** Rows of one batch carry keys, all different. */
  ghost predicate Apart(rows: Stories, ids: set<StoryId>) {
    && (forall i | i in rows && i in ids :: rows[i].key.Some?)
    && (forall i, j | i in rows && j in rows && i in ids && j in ids && rows[i].key == rows[j].key :: i == j)
  }

  ghost predicate Inv(w: World) {
    && Unique(w.rows)
    && (forall id | id in w.rows :: id in w.used)
    && (forall b, id | b in w.targets && id in w.targets[b] :: id in w.used)
    && (forall b | b in w.targets :: Apart(w.rows, w.targets[b]))
    && (forall id | id in w.rows && w.rows[id].snapshot.Some? ::
          var b := w.rows[id].snapshot.value.batch; b in w.targets && id in w.targets[b])
  }

  /** A restore never makes two live rows share a key: its rows were live together once. */
  lemma RestoreNeverClashes(w: World, digest: Star -> int, batch: Batch)
    requires Inv(w)
    ensures Unique(Restored(w.rows, digest, batch))
  {
    var t := Restored(w.rows, digest, batch);
    forall i, j | i in t && j in t && t[i].live && t[j].live && t[i].key.Some? && t[i].key == t[j].key
      ensures i == j
    {
      if w.rows[i].live != w.rows[j].live {
        if w.rows[i].live {
          Unblocked(w.rows, digest, batch, j, i);
        } else {
          Unblocked(w.rows, digest, batch, i, j);
        }
      } else if !w.rows[i].live {
        assert Apart(w.rows, w.targets[batch]);
      }
    }
  }

  lemma TellsIt(rows: Stories, id: StoryId)
    requires id in rows && rows[id].key.Some?
    ensures rows[id].live ==> rows[id].key.value in LiveKeys(rows)
  {
  }

  /** A row that comes back shares its key with no live one. */
  lemma Unblocked(rows: Stories, digest: Star -> int, batch: Batch, i: StoryId, j: StoryId)
    requires i in rows && j in rows && rows[i].key.Some? && rows[i].key == rows[j].key
    requires !rows[i].live && Restored(rows, digest, batch)[i].live
    ensures !rows[j].live
  {
    TellsIt(rows, j);
  }

  /** Keys of keyed rows never change and ids are never handed out again. */
  lemma TargetsStayApart(w: World, digest: Star -> int, s: Step, b: Batch)
    requires Inv(w) && b in Next(w, digest, s).targets
    ensures Apart(Next(w, digest, s).rows, Next(w, digest, s).targets[b])
  {
    var t := Next(w, digest, s);
    if b in w.targets {
      assert Apart(w.rows, w.targets[b]);
      assert forall i | i in t.rows && i in w.targets[b] :: i in w.rows && t.rows[i].key == w.rows[i].key;
    }
  }

  lemma InvKept(w: World, digest: Star -> int, s: Step)
    requires Inv(w)
    ensures Inv(Next(w, digest, s))
  {
    var t := Next(w, digest, s);
    forall b | b in t.targets ensures Apart(t.rows, t.targets[b]) {
      TargetsStayApart(w, digest, s, b);
    }
    if s.Restore? {
      RestoreNeverClashes(w, digest, s.batch);
    }
  }

  /** A table before the first remediation. */
  ghost predicate Start(w: World) {
    && Unique(w.rows) && w.targets == map[]
    && forall id | id in w.rows :: id in w.used && w.rows[id].snapshot.None?
  }

  lemma {:induction false} InvOnRuns(w: World, digest: Star -> int, steps: seq<Step>)
    requires Start(w)
    ensures Inv(After(w, digest, steps))
  {
    if steps != [] {
      InvOnRuns(w, digest, steps[..|steps| - 1]);
      InvKept(After(w, digest, steps[..|steps| - 1]), digest, steps[|steps| - 1]);
    }
  }

  /** Whatever wrote in between, and however many remediations overlap, every restore leaves at
      most one live row for each achievement key. */
  lemma RestoreKeepsKeysUnique(w: World, digest: Star -> int, steps: seq<Step>, batch: Batch)
    requires Start(w)
    ensures Unique(Restored(After(w, digest, steps).rows, digest, batch))
  {
    InvOnRuns(w, digest, steps);
    RestoreNeverClashes(After(w, digest, steps), digest, batch);
  }

  /** The steps that replace or remove the snapshot of a row. */
  predicate Disturbs(s: Step, id: StoryId) {
    (s.Touch? || s.SetAside? || s.Delete?) && s.id == id
  }

  lemma {:induction false} SnapshotLasts(w: World, digest: Star -> int, steps: seq<Step>, id: StoryId)
    requires Inv(w) && id in w.rows && w.rows[id].snapshot.Some?
    requires forall s | s in steps :: !Disturbs(s, id)
    ensures Inv(After(w, digest, steps))
    ensures id in After(w, digest, steps).rows && After(w, digest, steps).rows[id].snapshot == w.rows[id].snapshot
  {
    if steps != [] {
      var last := steps[|steps| - 1];
      assert last in steps;
      SnapshotLasts(w, digest, steps[..|steps| - 1], id);
      InvKept(After(w, digest, steps[..|steps| - 1]), digest, last);
    }
  }

  /** A row a batch touched comes back with the text the batch read, whatever was edited, inserted
      or restored since, unless it was touched again, merged away or deleted, or is archived while
      another live row tells its achievement. */
  lemma TouchedRowComesBack(w: World, digest: Star -> int, touch: Step, steps: seq<Step>)
    requires Inv(w) && touch.Touch? && touch.batch in w.targets && touch.id in w.targets[touch.batch]
    requires IsLive(w.rows, touch.id)
    requires forall s | s in steps :: !Disturbs(s, touch.id)
    ensures var later := After(Next(w, digest, touch), digest, steps).rows;
            var back := Restored(later, digest, touch.batch);
            && touch.id in later && touch.id in back
            && (Blocked(later, touch.id) ==> back[touch.id] == later[touch.id] && !back[touch.id].live)
            && (!Blocked(later, touch.id) ==>
                  back[touch.id].live && back[touch.id].content == Normal(touch.before)
                  && back[touch.id].contentHash == Some(digest(touch.before.star)))
  {
    InvKept(w, digest, touch);
    SnapshotLasts(Next(w, digest, touch), digest, steps, touch.id);
  }

  /** A row that two batches touched does not come back to what the first one read, not even when
      both are undone, newest first: the second snapshot has replaced the first. */
  lemma RetouchedRowStaysHalfway(w: World, digest: Star -> int, first: Batch, touch: Step, steps: seq<Step>)
    requires Inv(w) && touch.Touch? && touch.batch in w.targets && touch.id in w.targets[touch.batch]
    requires IsLive(w.rows, touch.id) && IsFrom(w.rows[touch.id], first) && first != touch.batch
    requires forall s | s in steps :: !Disturbs(s, touch.id)
    ensures var later := After(Next(w, digest, touch), digest, steps).rows;
            var back := Restored(Restored(later, digest, touch.batch), digest, first);
            && touch.id in later && touch.id in back
            && back[touch.id].content == if Blocked(later, touch.id) then later[touch.id].content else Normal(touch.before)
  {
    TouchedRowComesBack(w, digest, touch, steps);
    InvKept(w, digest, touch);
    SnapshotLasts(Next(w, digest, touch), digest, steps, touch.id);
  }
}
