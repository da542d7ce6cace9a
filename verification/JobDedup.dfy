/** Removing duplicate job rows (apps/api/scripts/dedup_cleanup.py) against a one-pass
    specification: every job of a group becomes the group's oldest one.
 */
module JobDedup {
  import opened Shared

  type JobId = nat
  type RowId = nat

  datatype Job = Job(user: nat, title: string, company: string, createdAt: int)

  datatype Key = Key(user: nat, title: string, company: string)

  datatype Group = Group(key: Key, records: seq<JobId>)

  type Jobs = map<JobId, Job>

  /** `norm` lower-cases and trims. */
  function KeyOf(norm: string -> string, j: Job): Key {
    Key(j.user, norm(j.title), norm(j.company))
  }

  /** The query returns every row once, in some order. */
  predicate Lists(rows: seq<JobId>, jobs: Jobs) {
    && Distinct(rows)
    && (forall id | id in rows :: id in jobs)
    && (forall id | id in jobs :: id in rows)
  }

  /** The rows of one group in query order. */
  function RowsOf(jobs: Jobs, norm: string -> string, rows: seq<JobId>, k: Key): (r: seq<JobId>)
    requires forall id | id in rows :: id in jobs
    ensures forall id :: id in r <==> id in rows && KeyOf(norm, jobs[id]) == k
  {
    if rows == [] then []
    else
      var before, last := RowsOf(jobs, norm, rows[..|rows| - 1], k), rows[|rows| - 1];
      assert forall id :: id in rows <==> id in rows[..|rows| - 1] || id == last;
      if KeyOf(norm, jobs[last]) == k then before + [last] else before
  }

  /** `kept_id`: the first row with the least creation time. */
  function Oldest(jobs: Jobs, ids: seq<JobId>): (id: JobId)
    requires ids != [] && forall i | i in ids :: i in jobs
    ensures id in ids && forall i | i in ids :: jobs[id].createdAt <= jobs[i].createdAt
  {
    if |ids| == 1 then ids[0]
    else
      var best, last := Oldest(jobs, ids[..|ids| - 1]), ids[|ids| - 1];
      assert forall i :: i in ids <==> i in ids[..|ids| - 1] || i == last;
      if jobs[last].createdAt < jobs[best].createdAt then last else best
  }

  /** Exactly the groups of more than one row, once each. */
  ghost predicate AreGroups(jobs: Jobs, norm: string -> string, rows: seq<JobId>, groups: seq<Group>)
    requires forall id | id in rows :: id in jobs
  {
    && (forall g | g in groups :: g.records == RowsOf(jobs, norm, rows, g.key) && |g.records| > 1)
    && (forall k | |RowsOf(jobs, norm, rows, k)| > 1 :: exists g :: g in groups && g.key == k)
    && (forall p, q | 0 <= p < q < |groups| :: groups[p].key != groups[q].key)
  }

  /** find_duplicate_groups: the dictionary first, then the groups of more than one. */
  method FindGroups(jobs: Jobs, norm: string -> string, rows: seq<JobId>) returns (result: seq<Group>)
    requires Lists(rows, jobs)
    ensures AreGroups(jobs, norm, rows, result)
  {
    var order, groups := GroupByKey(jobs, norm, rows);
    result := [];
    for i := 0 to |order|
      invariant forall g | g in result :: g.key in order[..i] && g.records == groups[g.key] && |g.records| > 1
      invariant forall k | k in order[..i] && |groups[k]| > 1 :: Group(k, groups[k]) in result
      invariant forall p, q | 0 <= p < q < |result| :: result[p].key != result[q].key
    {
      assert order[i] !in order[..i];
      if |groups[order[i]]| > 1 {
        result := result + [Group(order[i], groups[order[i]])];
      }
    }
    forall k | |RowsOf(jobs, norm, rows, k)| > 1 ensures exists g :: g in result && g.key == k {
      assert k in order[..|order|];
      assert Group(k, groups[k]) in result;
    }
  }

  method GroupByKey(jobs: Jobs, norm: string -> string, rows: seq<JobId>)
    returns (order: seq<Key>, groups: map<Key, seq<JobId>>)
    requires forall id | id in rows :: id in jobs
    ensures forall k :: k in groups <==> k in order
    ensures Distinct(order)
    ensures forall k :: RowsOf(jobs, norm, rows, k) == if k in groups then groups[k] else []
  {
    order, groups := [], map[];
    for i := 0 to |rows|
      invariant forall k :: k in groups <==> k in order
      invariant Distinct(order)
      invariant forall k :: RowsOf(jobs, norm, rows[..i], k) == if k in groups then groups[k] else []
    {
      var k := KeyOf(norm, jobs[rows[i]]);
      RowsOfOneMore(jobs, norm, rows, i);
      if k !in groups {
        groups := groups[k := []];
        order := order + [k];
      }
      groups := groups[k := groups[k] + [rows[i]]];
    }
    assert rows[..|rows|] == rows;
  }

  lemma RowsOfOneMore(jobs: Jobs, norm: string -> string, rows: seq<JobId>, i: nat)
    requires i < |rows| && forall id | id in rows :: id in jobs
    ensures forall k :: RowsOf(jobs, norm, rows[..i + 1], k)
                     == RowsOf(jobs, norm, rows[..i], k) + if KeyOf(norm, jobs[rows[i]]) == k then [rows[i]] else []
  {
    assert rows[..i + 1][..i] == rows[..i];
  }

  // ------------------------------------------------------------ the specification

  /** An application of a user for a job; `active` while it is being pursued. */
  datatype Application = Application(user: nat, job: JobId, active: bool)

  type Applications = map<RowId, Application>

  /** What the partial unique index on (user, job) of active applications demands. */
  ghost predicate OneActiveEach(apps: Applications) {
    forall a, b | Clash(apps, a, b) :: apps[a].job != apps[b].job
  }

  /** Two active applications of one user. */
  ghost predicate Clash(apps: Applications, a: RowId, b: RowId) {
    a in apps && b in apps && a != b && apps[a].active && apps[b].active && apps[a].user == apps[b].user
  }

  datatype Tables = Tables(jobs: Jobs, applications: Applications, resumes: map<RowId, Option<JobId>>,
                           embeddings: map<RowId, JobId>)
  {
    /** The foreign keys hold. */
    ghost predicate Valid() {
      && (forall a | a in applications :: applications[a].job in jobs)
      && (forall r | r in resumes && resumes[r].Some? :: resumes[r].value in jobs)
      && (forall e | e in embeddings :: embeddings[e] in jobs)
    }
  }

  /** The job that stands for each job afterwards: the oldest of its group. */
  ghost function Keepers(jobs: Jobs, norm: string -> string, rows: seq<JobId>): map<JobId, JobId>
    requires Lists(rows, jobs)
  {
    map id | id in jobs :: Oldest(jobs, RowsOf(jobs, norm, rows, KeyOf(norm, jobs[id])))
  }

  lemma KeepersAreOldest(jobs: Jobs, norm: string -> string, rows: seq<JobId>, id: JobId)
    requires Lists(rows, jobs) && id in jobs
    ensures var keep := Keepers(jobs, norm, rows);
            && keep[id] in jobs && keep[keep[id]] == keep[id] && KeyOf(norm, jobs[keep[id]]) == KeyOf(norm, jobs[id])
            && forall j | j in jobs && KeyOf(norm, jobs[j]) == KeyOf(norm, jobs[id]) ::
                 keep[j] == keep[id] && jobs[keep[id]].createdAt <= jobs[j].createdAt
  {
  }

  /** A replacement of jobs by jobs that stay. */
  ghost predicate Replaces(keep: map<JobId, JobId>, before: Tables) {
    && before.Valid() && keep.Keys == before.jobs.Keys
    && forall j | j in keep :: keep[j] in keep && keep[keep[j]] == keep[j]
  }

  ghost predicate Goes(keep: map<JobId, JobId>, id: JobId) {
    id in keep && keep[id] != id
  }

  /** The tables once the given jobs are gone and what pointed at them points at their keepers. */
  ghost function Replaced(before: Tables, keep: map<JobId, JobId>, gone: set<JobId>): Tables
    requires Replaces(keep, before)
  {
    Tables(before.jobs - gone,
           map a | a in before.applications ::
             if before.applications[a].job in gone then before.applications[a].(job := keep[before.applications[a].job])
             else before.applications[a],
           map r | r in before.resumes ::
             if before.resumes[r].Some? && before.resumes[r].value in gone
             then Some(keep[before.resumes[r].value]) else before.resumes[r],
           map e | e in before.embeddings && before.embeddings[e] !in gone :: before.embeddings[e])
  }

  /** The specification: each job gives way to its keeper, in one pass; its embedding goes too. */
  ghost function Cleaned(before: Tables, keep: map<JobId, JobId>): Tables
    requires Replaces(keep, before)
  {
    Tables(map j | j in before.jobs && keep[j] == j :: before.jobs[j],
           map a | a in before.applications :: before.applications[a].(job := keep[before.applications[a].job]),
           map r | r in before.resumes ::
             if before.resumes[r].Some? then Some(keep[before.resumes[r].value]) else None,
           map e | e in before.embeddings && keep[before.embeddings[e]] == before.embeddings[e] :: before.embeddings[e])
  }

  /** Relinking to the keeper and then deleting is one more replacement. */
  lemma OneMoreReplaced(before: Tables, keep: map<JobId, JobId>, gone: set<JobId>, id: JobId)
    requires Replaces(keep, before) && id !in gone && Goes(keep, id) && forall j | j in gone :: Goes(keep, j)
    ensures var t := Replaced(before, keep, gone);
            AfterDelete(AfterRelink(t, id, keep[id]), id) == Replaced(before, keep, gone + {id})
    ensures Relinked(Replaced(before, keep, gone).applications, id, keep[id])
         == Replaced(before, keep, gone + {id}).applications
  {
    var t, t' := Replaced(before, keep, gone), Replaced(before, keep, gone + {id});
    assert t.jobs - {id} == t'.jobs;
    ApplicationsReplaced(before, keep, gone, id);
    ResumesReplaced(before, keep, gone, id);
    assert Unembedded(t.embeddings, id) == t'.embeddings;
  }

  lemma ApplicationsReplaced(before: Tables, keep: map<JobId, JobId>, gone: set<JobId>, id: JobId)
    requires Replaces(keep, before) && id !in gone && Goes(keep, id) && forall j | j in gone :: Goes(keep, j)
    ensures var apps := Relinked(Replaced(before, keep, gone).applications, id, keep[id]);
            apps == Replaced(before, keep, gone + {id}).applications && Unlinked(apps, id) == apps
  {
    var apps, apps' := Relinked(Replaced(before, keep, gone).applications, id, keep[id]),
                       Replaced(before, keep, gone + {id}).applications;
    forall a | a in before.applications ensures a in apps && apps[a] == apps'[a] && apps[a].job != id {
      assert before.applications[a].job in keep;
    }
    assert apps == apps';
    assert Unlinked(apps, id) == apps;
  }

  lemma ResumesReplaced(before: Tables, keep: map<JobId, JobId>, gone: set<JobId>, id: JobId)
    requires Replaces(keep, before) && id !in gone && Goes(keep, id) && forall j | j in gone :: Goes(keep, j)
    ensures Detached(RelinkedResumes(Replaced(before, keep, gone).resumes, id, keep[id]), id)
         == Replaced(before, keep, gone + {id}).resumes
  {
    var resumes := Detached(RelinkedResumes(Replaced(before, keep, gone).resumes, id, keep[id]), id);
    var resumes' := Replaced(before, keep, gone + {id}).resumes;
    forall r | r in before.resumes ensures resumes[r] == resumes'[r] {
      assert before.resumes[r].Some? ==> before.resumes[r].value in keep;
    }
    assert resumes == resumes';
  }

  lemma NothingReplaced(before: Tables, keep: map<JobId, JobId>)
    requires Replaces(keep, before)
    ensures Replaced(before, keep, {}) == before
  {
    var t := Replaced(before, keep, {});
    assert t.jobs == before.jobs && t.applications == before.applications && t.resumes == before.resumes;
    assert t.embeddings == before.embeddings;
  }

  lemma AllReplaced(before: Tables, keep: map<JobId, JobId>, gone: set<JobId>)
    requires Replaces(keep, before) && forall id :: id in gone <==> Goes(keep, id)
    ensures Replaced(before, keep, gone) == Cleaned(before, keep)
  {
    AllJobsReplaced(before, keep, gone);
    AllApplicationsReplaced(before, keep, gone);
    AllResumesReplaced(before, keep, gone);
  }

  lemma AllJobsReplaced(before: Tables, keep: map<JobId, JobId>, gone: set<JobId>)
    requires Replaces(keep, before) && forall id :: id in gone <==> Goes(keep, id)
    ensures Replaced(before, keep, gone).jobs == Cleaned(before, keep).jobs
    ensures Replaced(before, keep, gone).embeddings == Cleaned(before, keep).embeddings
  {
  }

  lemma AllApplicationsReplaced(before: Tables, keep: map<JobId, JobId>, gone: set<JobId>)
    requires Replaces(keep, before) && forall id :: id in gone <==> Goes(keep, id)
    ensures Replaced(before, keep, gone).applications == Cleaned(before, keep).applications
  {
  }

  lemma AllResumesReplaced(before: Tables, keep: map<JobId, JobId>, gone: set<JobId>)
    requires Replaces(keep, before) && forall id :: id in gone <==> Goes(keep, id)
    ensures Replaced(before, keep, gone).resumes == Cleaned(before, keep).resumes
  {
  }

  function Relinked(apps: Applications, from: JobId, to: JobId): Applications {
    map a | a in apps :: if apps[a].job == from then apps[a].(job := to) else apps[a]
  }

  function RelinkedResumes(resumes: map<RowId, Option<JobId>>, from: JobId, to: JobId): map<RowId, Option<JobId>> {
    map r | r in resumes :: if resumes[r] == Some(from) then Some(to) else resumes[r]
  }

  function Unlinked(apps: Applications, id: JobId): Applications {
    map a | a in apps && apps[a].job != id :: apps[a]
  }

  function Detached(resumes: map<RowId, Option<JobId>>, id: JobId): map<RowId, Option<JobId>> {
    map r | r in resumes :: if resumes[r] == Some(id) then None else resumes[r]
  }

  function Unembedded(embeddings: map<RowId, JobId>, id: JobId): map<RowId, JobId> {
    map e | e in embeddings && embeddings[e] != id :: embeddings[e]
  }

  // ------------------------------------------------------------ when the index objects

  /** No group of duplicates holds two active applications of one user. */
  ghost predicate GroupsFitIndex(before: Tables, norm: string -> string)
    requires before.Valid()
  {
    forall a, b | Clash(before.applications, a, b) ::
      KeyOf(norm, before.jobs[before.applications[a].job]) != KeyOf(norm, before.jobs[before.applications[b].job])
  }

  /** Two jobs have one keeper exactly when they are in one group. */
  ghost predicate KeepsByKey(before: Tables, norm: string -> string, keep: map<JobId, JobId>)
    requires Replaces(keep, before)
  {
    forall i, j | i in keep && j in keep :: keep[i] == keep[j] <==> KeyOf(norm, before.jobs[i]) == KeyOf(norm, before.jobs[j])
  }

  /** If the finished tables fit the index then so do those of every stage on the way, */
  lemma StagesFitIndex(before: Tables, norm: string -> string, keep: map<JobId, JobId>, gone: set<JobId>)
    requires Replaces(keep, before) && KeepsByKey(before, norm, keep) && GroupsFitIndex(before, norm)
    requires forall j | j in gone :: Goes(keep, j)
    ensures OneActiveEach(Replaced(before, keep, gone).applications)
  {
    var apps := Replaced(before, keep, gone).applications;
    forall a, b | Clash(apps, a, b) ensures apps[a].job != apps[b].job {
      assert Clash(before.applications, a, b);
      assert keep[apps[a].job] == keep[before.applications[a].job] && keep[apps[b].job] == keep[before.applications[b].job];
    }
  }

  /** and they do exactly when no group is in the way. */
  lemma FinishedFitsIndexIff(before: Tables, norm: string -> string, keep: map<JobId, JobId>)
    requires Replaces(keep, before) && KeepsByKey(before, norm, keep)
    ensures OneActiveEach(Cleaned(before, keep).applications) <==> GroupsFitIndex(before, norm)
  {
    var apps := Cleaned(before, keep).applications;
    assert forall a, b :: Clash(apps, a, b) <==> Clash(before.applications, a, b);
  }

  // -------------------------------------------------------------- the database

  /** relink_records */
  function AfterRelink(t: Tables, from: JobId, to: JobId): Tables {
    t.(applications := Relinked(t.applications, from, to), resumes := RelinkedResumes(t.resumes, from, to))
  }

  /** delete_job, with the schema's referential actions: applications and the embedding of a
      deleted job go with it, resumes lose their link. */
  function AfterDelete(t: Tables, id: JobId): Tables {
    Tables(t.jobs - {id}, Unlinked(t.applications, id), Detached(t.resumes, id), Unembedded(t.embeddings, id))
  }

  /** `indexed`: the unique index on active applications has been built. */
  class Database {
    const indexed: bool
    var tables: Tables

    constructor (tables: Tables, indexed: bool)
      ensures this.tables == tables && this.indexed == indexed
    {
      this.tables, this.indexed := tables, indexed;
    }

    /** relink_records; it raises when the index objects. */
    method Relink(from: JobId, to: JobId) returns (ok: bool)
      modifies this
      ensures ok <==> !indexed || OneActiveEach(AfterRelink(old(tables), from, to).applications)
      ensures tables == if ok then AfterRelink(old(tables), from, to) else old(tables)
    {
      var relinked := AfterRelink(tables, from, to);
      if indexed {
        var fits := FitsIndex(relinked.applications);
        if !fits {
          return false;
        }
      }
      tables := relinked;
      return true;
    }

    /** What the index answers. */
    method FitsIndex(apps: Applications) returns (fits: bool)
      ensures fits <==> OneActiveEach(apps)
    {
      fits := forall a | a in apps ::
        forall b | b in apps && a != b && apps[a].active && apps[b].active && apps[a].user == apps[b].user ::
          apps[a].job != apps[b].job;
      assert OneActiveEach(apps) ==> fits by {
        assert forall a, b | a in apps && b in apps && a != b && apps[a].active && apps[b].active
                             && apps[a].user == apps[b].user :: Clash(apps, a, b);
      }
    }

    method DeleteJob(id: JobId)
      modifies this
      ensures tables == AfterDelete(old(tables), id)
    {
      tables := AfterDelete(tables, id);
    }

    /** One turn of the inner loop of run_real: relink, then delete. */
    method Remove(id: JobId, keeper: JobId, ghost before: Tables, ghost norm: string -> string,
                  ghost keep: map<JobId, JobId>, ghost gone: set<JobId>)
      returns (ok: bool)
      requires Keeping(before, norm, keep) && tables == Replaced(before, keep, gone)
      requires id !in gone && Goes(keep, id) && keeper == keep[id] && forall j | j in gone :: Goes(keep, j)
      modifies this
      ensures ok ==> Stage(before, keep, gone + {id}, tables, indexed)
      ensures !ok ==> indexed && !GroupsFitIndex(before, norm)
    {
      OneMoreReplaced(before, keep, gone, id);
      NoClashNoRefusal(before, norm, keep, gone + {id});
      ok := Relink(id, keeper);
      if ok {
        DeleteJob(id);
      }
    }

    /** The inner loop: of the given rows everything but the kept one goes. */
    method CleanGroup(records: seq<JobId>, kept: JobId, ghost before: Tables, ghost norm: string -> string,
                      ghost keep: map<JobId, JobId>, ghost gone: set<JobId>)
      returns (ok: bool, removed: seq<JobId>)
      requires Keeping(before, norm, keep) && Stage(before, keep, gone, tables, indexed)
      requires Ready(keep, records, kept, gone)
      modifies this
      ensures ok ==> Stage(before, keep, gone + Ids(removed), tables, indexed) && AllBut(records, kept, removed)
      ensures !ok ==> indexed && !GroupsFitIndex(before, norm)
    {
      ok, removed := true, [];
      assert gone + Ids([]) == gone;
      for i := 0 to |records|
        invariant ok
        invariant AllBut(records[..i], kept, removed)
        invariant Stage(before, keep, gone + Ids(removed), tables, indexed)
      {
        var id := records[i];
        NextRecord(keep, records, kept, gone, removed, i);
        if id != kept {
          ok := Remove(id, kept, before, norm, keep, gone + Ids(removed));
          if !ok {
            return;
          }
          removed := removed + [id];
        }
      }
      assert records[..|records|] == records;
    }

    /** One group: the oldest stays. */
    method CleanNext(norm: string -> string, table: Jobs, groups: seq<Group>, i: nat, removed: seq<JobId>,
                     ghost rows: seq<JobId>, ghost before: Tables, ghost keep: map<JobId, JobId>)
      returns (ok: bool, more: seq<JobId>)
      requires table == before.jobs && i < |groups|
      requires Lists(rows, table) && keep == Keepers(table, norm, rows) && AreGroups(table, norm, rows, groups)
      requires Keeping(before, norm, keep) && Stage(before, keep, Ids(removed), tables, indexed)
      requires DoneFor(keep, groups[..i], removed)
      modifies this
      ensures ok ==> Stage(before, keep, Ids(removed + more), tables, indexed) && DoneFor(keep, groups[..i + 1], removed + more)
      ensures !ok ==> indexed && !GroupsFitIndex(before, norm)
    {
      NextGroup(table, norm, rows, groups, i, removed);
      var kept := Oldest(table, groups[i].records);
      ok, more := CleanGroup(groups[i].records, kept, before, norm, keep, Ids(removed));
      if ok {
        DoneForOneMore(keep, groups, i, removed, more, kept);
        IdsOfBoth(removed, more);
      }
    }

    /** The outer loop, up to the commit. */
    method CleanGroups(norm: string -> string, ghost rows: seq<JobId>, groups: seq<Group>,
                       ghost before: Tables, ghost keep: map<JobId, JobId>)
      returns (ok: bool, removed: seq<JobId>)
      requires before == tables && Lists(rows, before.jobs) && keep == Keepers(before.jobs, norm, rows)
      requires Keeping(before, norm, keep) && AreGroups(before.jobs, norm, rows, groups)
      requires indexed ==> OneActiveEach(before.applications)
      modifies this
      ensures ok ==> Stage(before, keep, Ids(removed), tables, indexed) && forall id :: id in removed <==> Goes(keep, id)
      ensures !ok ==> indexed && !GroupsFitIndex(before, norm)
    {
      ok, removed := true, [];
      var table := tables.jobs;
      NothingReplaced(before, keep);
      assert Ids([]) == {};
      for i := 0 to |groups|
        invariant ok && DoneFor(keep, groups[..i], removed)
        invariant Stage(before, keep, Ids(removed), tables, indexed)
      {
        var more;
        ok, more := CleanNext(norm, table, groups, i, removed, rows, before, keep);
        if !ok {
          return;
        }
        removed := removed + more;
      }
      assert groups[..|groups|] == groups;
      AllGone(table, norm, rows, groups);
    }

    /** run_real: one transaction; `rows` is the order the query returned. */
    method RunReal(norm: string -> string, rows: seq<JobId>) returns (committed: bool, removed: seq<JobId>)
      requires tables.Valid() && Lists(rows, tables.jobs)
      requires indexed ==> OneActiveEach(tables.applications)
      modifies this
      ensures committed <==> Commits(old(tables), norm, indexed)
      ensures tables == Outcome(old(tables), norm, rows, indexed)
      ensures committed ==> forall id :: id in removed <==> Goes(Keepers(old(tables).jobs, norm, rows), id)
      ensures !committed ==> removed == []
    {
      var groups := FindGroups(tables.jobs, norm, rows);
      var saved := tables;
      ghost var keep := Keepers(saved.jobs, norm, rows);
      KeepersKeep(saved, norm, rows);
      committed, removed := CleanGroups(norm, rows, groups, saved, keep);
      if committed {
        AllStagesDone(saved, norm, keep, Ids(removed), tables, indexed);
      } else {
        tables, removed := saved, [];
      }
    }
  }

  /** Part of the way: these jobs are gone, and the index, if there is one, is satisfied. */
  ghost predicate Stage(before: Tables, keep: map<JobId, JobId>, gone: set<JobId>, t: Tables, indexed: bool)
    requires Replaces(keep, before)
  {
    t == Replaced(before, keep, gone) && (indexed ==> OneActiveEach(t.applications))
  }

  ghost predicate Keeping(before: Tables, norm: string -> string, keep: map<JobId, JobId>) {
    Replaces(keep, before) && KeepsByKey(before, norm, keep)
  }

  lemma NoClashNoRefusal(before: Tables, norm: string -> string, keep: map<JobId, JobId>, gone: set<JobId>)
    requires Keeping(before, norm, keep) && forall j | j in gone :: Goes(keep, j)
    ensures GroupsFitIndex(before, norm) ==> OneActiveEach(Replaced(before, keep, gone).applications)
  {
    if GroupsFitIndex(before, norm) {
      StagesFitIndex(before, norm, keep, gone);
    }
  }

  lemma AllStagesDone(before: Tables, norm: string -> string, keep: map<JobId, JobId>, gone: set<JobId>, t: Tables, indexed: bool)
    requires Keeping(before, norm, keep) && Stage(before, keep, gone, t, indexed)
    requires forall id :: id in gone <==> Goes(keep, id)
    ensures t == Cleaned(before, keep) && Commits(before, norm, indexed)
  {
    AllReplaced(before, keep, gone);
    FinishedFitsIndexIff(before, norm, keep);
  }

  /** The run commits unless the index is there and some group is in its way. */
  ghost predicate Commits(before: Tables, norm: string -> string, indexed: bool)
    requires before.Valid()
  {
    !indexed || GroupsFitIndex(before, norm)
  }

  /** What a run leaves. */
  ghost function Outcome(before: Tables, norm: string -> string, rows: seq<JobId>, indexed: bool): Tables
    requires before.Valid() && Lists(rows, before.jobs)
  {
    KeepersReplace(before, norm, rows);
    if Commits(before, norm, indexed) then Cleaned(before, Keepers(before.jobs, norm, rows)) else before
  }

  function Ids(s: seq<JobId>): set<JobId> {
    set id | id in s
  }

  lemma IdsOfBoth(a: seq<JobId>, b: seq<JobId>)
    ensures Ids(a) + Ids(b) == Ids(a + b)
  {
  }

  predicate InGroups(groups: seq<Group>, id: JobId) {
    exists g :: g in groups && id in g.records
  }

  lemma KeepersReplace(before: Tables, norm: string -> string, rows: seq<JobId>)
    requires before.Valid() && Lists(rows, before.jobs)
    ensures Replaces(Keepers(before.jobs, norm, rows), before)
  {
    var keep := Keepers(before.jobs, norm, rows);
    assert keep.Keys == before.jobs.Keys;
    forall id | id in before.jobs ensures StandsFor(keep, id) {
      KeepersAreOldest(before.jobs, norm, rows, id);
    }
    StandingReplaces(before, keep);
  }

  predicate StandsFor(keep: map<JobId, JobId>, id: JobId) {
    id in keep && keep[id] in keep && keep[keep[id]] == keep[id]
  }

  lemma StandingReplaces(before: Tables, keep: map<JobId, JobId>)
    requires before.Valid() && keep.Keys == before.jobs.Keys && forall id | id in before.jobs :: StandsFor(keep, id)
    ensures Replaces(keep, before)
  {
  }

  lemma KeepersKeep(before: Tables, norm: string -> string, rows: seq<JobId>)
    requires before.Valid() && Lists(rows, before.jobs)
    ensures Keeping(before, norm, Keepers(before.jobs, norm, rows))
  {
    KeepersReplace(before, norm, rows);
    var keep := Keepers(before.jobs, norm, rows);
    forall i, j | i in keep && j in keep
      ensures keep[i] == keep[j] <==> KeyOf(norm, before.jobs[i]) == KeyOf(norm, before.jobs[j])
    {
      KeepersAreOldest(before.jobs, norm, rows, i);
      KeepersAreOldest(before.jobs, norm, rows, j);
    }
  }

  lemma {:induction false} RowsOfDistinct(jobs: Jobs, norm: string -> string, rows: seq<JobId>, k: Key)
    requires (forall id | id in rows :: id in jobs) && Distinct(rows)
    ensures Distinct(RowsOf(jobs, norm, rows, k))
  {
    if rows != [] {
      var before, last := rows[..|rows| - 1], rows[|rows| - 1];
      assert last !in before;
      RowsOfDistinct(jobs, norm, before, k);
      assert last !in RowsOf(jobs, norm, before, k);
    }
  }

  /** The rows of one group share one keeper. */
  lemma GroupShares(jobs: Jobs, norm: string -> string, rows: seq<JobId>, g: Group)
    requires Lists(rows, jobs) && g.records == RowsOf(jobs, norm, rows, g.key) && g.records != []
    ensures Distinct(g.records)
    ensures forall j | j in g.records :: j in jobs && Keepers(jobs, norm, rows)[j] == Oldest(jobs, g.records)
  {
    RowsOfDistinct(jobs, norm, rows, g.key);
  }

  /** and belong to no other group. */
  lemma GroupsApart(jobs: Jobs, norm: string -> string, rows: seq<JobId>, groups: seq<Group>, i: nat, j: JobId)
    requires Lists(rows, jobs) && AreGroups(jobs, norm, rows, groups) && i < |groups|
    requires InGroups(groups[..i], j)
    ensures j !in groups[i].records
  {
    assert groups[i] in groups;
    var g :| g in groups[..i] && j in g.records;
    assert g in groups;
  }

  lemma InOneMoreGroup(groups: seq<Group>, i: nat, j: JobId)
    requires i < |groups|
    ensures InGroups(groups[..i + 1], j) <==> InGroups(groups[..i], j) || j in groups[i].records
  {
    assert groups[..i + 1] == groups[..i] + [groups[i]];
    if InGroups(groups[..i], j) {
      var g :| g in groups[..i] && j in g.records;
      assert g in groups[..i + 1];
    } else if j in groups[i].records {
      assert groups[i] in groups[..i + 1];
    }
  }

  /** Rows of one keeper, none of them gone yet. */
  ghost predicate Ready(keep: map<JobId, JobId>, records: seq<JobId>, kept: JobId, gone: set<JobId>) {
    && Distinct(records)
    && (forall j | j in records :: j in keep && keep[j] == kept)
    && (forall j | j in gone :: Goes(keep, j) && j !in records)
  }

  /** What cleaning group i may rely on. */
  lemma NextGroup(jobs: Jobs, norm: string -> string, rows: seq<JobId>, groups: seq<Group>, i: nat, removed: seq<JobId>)
    requires Lists(rows, jobs) && AreGroups(jobs, norm, rows, groups) && i < |groups|
    requires DoneFor(Keepers(jobs, norm, rows), groups[..i], removed)
    ensures var records := groups[i].records;
            && records != [] && (forall j | j in records :: j in jobs)
            && Ready(Keepers(jobs, norm, rows), records, Oldest(jobs, records), Ids(removed))
  {
    assert groups[i] in groups;
    GroupShares(jobs, norm, rows, groups[i]);
    forall j | j in Ids(removed) ensures j !in groups[i].records {
      GroupsApart(jobs, norm, rows, groups, i, j);
    }
  }

  /** The jobs removed so far are those of the groups done so far that give way. */
  ghost predicate DoneFor(keep: map<JobId, JobId>, groups: seq<Group>, removed: seq<JobId>) {
    forall id :: id in removed <==> Goes(keep, id) && InGroups(groups, id)
  }

  /** What removing row i of a group may rely on, and what it makes of the list. */
  lemma NextRecord(keep: map<JobId, JobId>, records: seq<JobId>, kept: JobId, gone: set<JobId>, removed: seq<JobId>, i: nat)
    requires Ready(keep, records, kept, gone) && i < |records| && AllBut(records[..i], kept, removed)
    ensures var id := records[i];
            if id == kept then AllBut(records[..i + 1], kept, removed)
            else
              && Goes(keep, id) && id !in gone + Ids(removed) && (forall j | j in gone + Ids(removed) :: Goes(keep, j))
              && AllBut(records[..i + 1], kept, removed + [id])
              && gone + Ids(removed) + {id} == gone + Ids(removed + [id])
  {
    var id := records[i];
    assert id in records && id !in records[..i];
    assert records[..i + 1] == records[..i] + [id];
    forall j | j in removed ensures Goes(keep, j) {
      assert j in records;
    }
  }

  ghost predicate AllBut(records: seq<JobId>, kept: JobId, removed: seq<JobId>) {
    forall id :: id in removed <==> id in records && id != kept
  }

  lemma DoneForOneMore(keep: map<JobId, JobId>, groups: seq<Group>, i: nat, removed: seq<JobId>, more: seq<JobId>, kept: JobId)
    requires i < |groups| && DoneFor(keep, groups[..i], removed)
    requires AllBut(groups[i].records, kept, more)
    requires forall id | id in groups[i].records :: id in keep && keep[id] == kept
    ensures DoneFor(keep, groups[..i + 1], removed + more)
  {
    forall id ensures id in removed + more <==> Goes(keep, id) && InGroups(groups[..i + 1], id) {
      InOneMoreGroup(groups, i, id);
    }
  }

  /** A job that is not its own keeper has company, so its group is among the groups found. */
  lemma AllGone(jobs: Jobs, norm: string -> string, rows: seq<JobId>, groups: seq<Group>)
    requires Lists(rows, jobs) && AreGroups(jobs, norm, rows, groups)
    ensures forall id | Goes(Keepers(jobs, norm, rows), id) :: InGroups(groups, id)
  {
    forall id | Goes(Keepers(jobs, norm, rows), id) ensures InGroups(groups, id) {
      KeepersAreOldest(jobs, norm, rows, id);
      var k, kept := KeyOf(norm, jobs[id]), Keepers(jobs, norm, rows)[id];
      TwoMakeAGroup(jobs, norm, rows, groups, k, id, kept);
    }
  }

  lemma TwoMakeAGroup(jobs: Jobs, norm: string -> string, rows: seq<JobId>, groups: seq<Group>, k: Key, i: JobId, j: JobId)
    requires Lists(rows, jobs) && AreGroups(jobs, norm, rows, groups) && i != j
    requires i in jobs && j in jobs && KeyOf(norm, jobs[i]) == k && KeyOf(norm, jobs[j]) == k
    ensures InGroups(groups, i)
  {
    var r := RowsOf(jobs, norm, rows, k);
    assert i in r && j in r;
    var g :| g in groups && g.key == k;
    assert i in g.records;
  }

  // ------------------------------------------------------ what the clean-up promises

  /** After a run that commits each (user, title, company) has exactly one job, the earliest
      created of the rows it had, unchanged. */
  lemma OneJobPerKey(before: Tables, norm: string -> string, rows: seq<JobId>, indexed: bool)
    requires before.Valid() && Lists(rows, before.jobs) && Commits(before, norm, indexed)
    ensures var keep := Keepers(before.jobs, norm, rows);
            var after := Outcome(before, norm, rows, indexed).jobs;
            && (forall j | j in after :: j in before.jobs && after[j] == before.jobs[j])
            && OnePerKey(after, norm)
            && (forall j | j in before.jobs ::
                  && keep[j] in after && KeyOf(norm, after[keep[j]]) == KeyOf(norm, before.jobs[j])
                  && after[keep[j]].createdAt <= before.jobs[j].createdAt)
  {
    KeepersReplace(before, norm, rows);
    forall j | j in before.jobs
      ensures var keep := Keepers(before.jobs, norm, rows);
              && keep[j] in before.jobs && keep[keep[j]] == keep[j]
              && KeyOf(norm, before.jobs[keep[j]]) == KeyOf(norm, before.jobs[j])
              && before.jobs[keep[j]].createdAt <= before.jobs[j].createdAt
    {
      KeepersAreOldest(before.jobs, norm, rows, j);
    }
  }

  /** No application or resume is lost, none dangles, each still points into its own group,
      and one that pointed at a job that stays still points at that job. */
  ghost predicate LinksKept(before: Tables, after: Tables, norm: string -> string) {
    && after.Valid()
    && after.applications.Keys == before.applications.Keys && after.resumes.Keys == before.resumes.Keys
    && (forall a | a in before.applications ::
          && after.applications[a] == before.applications[a].(job := after.applications[a].job)
          && LinkKept(before.jobs, after.jobs, norm, before.applications[a].job, after.applications[a].job))
    && (forall r | r in before.resumes ::
          if before.resumes[r].None? then after.resumes[r].None?
          else after.resumes[r].Some? && LinkKept(before.jobs, after.jobs, norm, before.resumes[r].value, after.resumes[r].value))
  }

  ghost predicate LinkKept(jobs: Jobs, left: Jobs, norm: string -> string, from: JobId, to: JobId) {
    SameGroup(jobs, norm, from, to) && (from in left ==> to == from)
  }

  lemma CleanedKeepsLinks(before: Tables, keep: map<JobId, JobId>, norm: string -> string)
    requires Replaces(keep, before) && forall j | j in keep :: SameGroup(before.jobs, norm, j, keep[j])
    ensures LinksKept(before, Cleaned(before, keep), norm)
  {
  }

  /** Whether or not the run commits, and what it leaves fits the index if there is one. */
  lemma LinksStayInTheirGroup(before: Tables, norm: string -> string, rows: seq<JobId>, indexed: bool)
    requires before.Valid() && Lists(rows, before.jobs) && (indexed ==> OneActiveEach(before.applications))
    ensures var after := Outcome(before, norm, rows, indexed);
            LinksKept(before, after, norm) && (indexed ==> OneActiveEach(after.applications))
  {
    if Commits(before, norm, indexed) {
      KeepersKeep(before, norm, rows);
      FinishedFitsIndexIff(before, norm, Keepers(before.jobs, norm, rows));
      CleaningKeepsLinks(before, norm, rows);
    } else {
      NothingMoved(before, norm);
    }
  }

  lemma NothingMoved(before: Tables, norm: string -> string)
    requires before.Valid()
    ensures LinksKept(before, before, norm)
  {
  }

  lemma CleaningKeepsLinks(before: Tables, norm: string -> string, rows: seq<JobId>)
    requires before.Valid() && Lists(rows, before.jobs) && Replaces(Keepers(before.jobs, norm, rows), before)
    ensures LinksKept(before, Cleaned(before, Keepers(before.jobs, norm, rows)), norm)
  {
    var keep := Keepers(before.jobs, norm, rows);
    forall j | j in keep ensures SameGroup(before.jobs, norm, j, keep[j]) {
      KeepersAreOldest(before.jobs, norm, rows, j);
    }
    CleanedKeepsLinks(before, keep, norm);
  }

  predicate SameGroup(jobs: Jobs, norm: string -> string, i: JobId, j: JobId) {
    i in jobs && j in jobs && KeyOf(norm, jobs[i]) == KeyOf(norm, jobs[j])
  }

  ghost predicate OnePerKey(jobs: Jobs, norm: string -> string) {
    forall i, j | i in jobs && j in jobs && KeyOf(norm, jobs[i]) == KeyOf(norm, jobs[j]) :: i == j
  }

  lemma UniqueRowsHaveNoGroup(jobs: Jobs, norm: string -> string, rows: seq<JobId>, k: Key)
    requires Lists(rows, jobs) && OnePerKey(jobs, norm)
    ensures |RowsOf(jobs, norm, rows, k)| <= 1
  {
    RowsOfDistinct(jobs, norm, rows, k);
    AtMostOne(RowsOf(jobs, norm, rows, k));
  }

  lemma AtMostOne(ids: seq<JobId>)
    requires Distinct(ids) && forall i, j | i in ids && j in ids :: i == j
    ensures |ids| <= 1
  {
    var last := |ids| - 1;
    if ids != [] {
      assert ids[0] in ids && ids[last] in ids;
    }
  }

  /** A second run, in whatever order it sees the rows, finds nothing and changes nothing. */
  lemma SecondRunFindsNothing(before: Tables, norm: string -> string, rows: seq<JobId>, indexed: bool, again: seq<JobId>)
    requires before.Valid() && Lists(rows, before.jobs) && Commits(before, norm, indexed)
    requires Lists(again, Outcome(before, norm, rows, indexed).jobs)
    ensures AreGroups(Outcome(before, norm, rows, indexed).jobs, norm, again, [])
  {
    OneJobPerKey(before, norm, rows, indexed);
    NoGroups(Outcome(before, norm, rows, indexed).jobs, norm, again);
  }

  /** One user with two active applications in one group stops the cleaning of every group. */
  lemma OneClashStopsEverything(before: Tables, norm: string -> string, rows: seq<JobId>, a: RowId, b: RowId)
    requires before.Valid() && Lists(rows, before.jobs) && Clash(before.applications, a, b)
    requires SameGroup(before.jobs, norm, before.applications[a].job, before.applications[b].job)
    ensures Outcome(before, norm, rows, true) == before
  {
  }

  lemma NoGroups(jobs: Jobs, norm: string -> string, rows: seq<JobId>)
    requires Lists(rows, jobs) && OnePerKey(jobs, norm)
    ensures AreGroups(jobs, norm, rows, [])
  {
    forall k ensures |RowsOf(jobs, norm, rows, k)| <= 1 {
      UniqueRowsHaveNoGroup(jobs, norm, rows, k);
    }
  }
}
