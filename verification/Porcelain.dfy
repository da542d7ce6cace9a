/** The guardian's care for a dirty worktree (ops/guardian/guardian.py). */
module Porcelain {
  import opened Shared

  datatype Parsed = Paths(paths: seq<string>) | Unparseable(record: string)

  const NUL: char := '\0'

  /** `raw.split("\0")` */
  function SplitNul(raw: string): (records: seq<string>)
    ensures records != []
  {
    if raw == "" then [""]
    else if raw[0] == NUL then [""] + SplitNul(raw[1..])
    else
      var rest := SplitNul(raw[1..]);
      [[raw[0]] + rest[0]] + rest[1..]
  }

  predicate IsMalformed(record: string) {
    record != "" && (|record| < 4 || record[2] != ' ')
  }

  /** A rename or a copy, which a second record follows. */
  predicate HasSource(record: string)
    requires |record| >= 2
  {
    record[0] in {'R', 'C'} || record[1] in {'R', 'C'}
  }

  function Before(paths: seq<string>, rest: Parsed): Parsed {
    if rest.Paths? then Paths(paths + rest.paths) else rest
  }

  function Read(records: seq<string>): Parsed {
    if records == [] then Paths([])
    else if records[0] == "" then Read(records[1..])
    else if IsMalformed(records[0]) then Unparseable(records[0])
    else if !HasSource(records[0]) then Before([records[0][3..]], Read(records[1..]))
    else if |records| == 1 then Paths([records[0][3..]])
    else if records[1] == "" then Before([records[0][3..]], Read(records[2..]))
    else Before([records[0][3..], records[1]], Read(records[2..]))
  }

  /** parse_porcelain_z */
  method Parse(raw: string) returns (r: Parsed)
    ensures r == Read(SplitNul(raw))
  {
    var records := SplitNul(raw);
    var paths: seq<string> := [];
    var i := 0;
    while i < |records|
      invariant 0 <= i <= |records| + 1
      invariant Read(records) == Before(paths, Read(From(records, i)))
    {
      var record := records[i];
      ReadNext(records, i, paths);
      i := i + 1;
      if record == "" {
        continue;
      }
      if |record| < 4 || record[2] != ' ' {
        return Unparseable(record);
      }
      var path := record[3..];
      paths := paths + [path];
      if record[0] in {'R', 'C'} || record[1] in {'R', 'C'} {
        if i < |records| && records[i] != "" {
          paths := paths + [records[i]];
        }
        i := i + 1;
      }
    }
    r := Paths(paths);
  }

  function From(records: seq<string>, i: nat): seq<string> {
    if i <= |records| then records[i..] else []
  }

  lemma {:induction false} ReadNext(records: seq<string>, i: nat, paths: seq<string>)
    requires i < |records|
    ensures var record := records[i];
            Before(paths, Read(From(records, i))) ==
              if record == "" then Before(paths, Read(From(records, i + 1)))
              else if IsMalformed(record) then Unparseable(record)
              else if !HasSource(record) then Before(paths + [record[3..]], Read(From(records, i + 1)))
              else if i + 1 == |records| || records[i + 1] == "" then Before(paths + [record[3..]], Read(From(records, i + 2)))
              else Before(paths + [record[3..]] + [records[i + 1]], Read(From(records, i + 2)))
  {
    var left := records[i..];
    assert left[0] == records[i] && left[1..] == From(records, i + 1);
    if |left| > 1 {
      assert left[1] == records[i + 1] && left[2..] == From(records, i + 2);
    }
    BeforeOne(paths, left, left[0]);
  }

  /** What the first record of those left comes to. */
  lemma {:induction false} BeforeOne(paths: seq<string>, left: seq<string>, record: string)
    requires left != [] && left[0] == record
    ensures Before(paths, Read(left)) ==
              if record == "" then Before(paths, Read(left[1..]))
              else if IsMalformed(record) then Unparseable(record)
              else if !HasSource(record) then Before(paths + [record[3..]], Read(left[1..]))
              else if |left| == 1 then Before(paths + [record[3..]], Paths([]))
              else if left[1] == "" then Before(paths + [record[3..]], Read(left[2..]))
              else Before(paths + [record[3..]] + [left[1]], Read(left[2..]))
  {
    if record != "" && !IsMalformed(record) {
      if !HasSource(record) {
        BeforeTwice(paths, [record[3..]], Read(left[1..]));
      } else if |left| > 1 {
        BeforeTwice(paths, [record[3..]], Read(left[2..]));
        BeforeTwice(paths, [record[3..], left[1]], Read(left[2..]));
        assert paths + [record[3..], left[1]] == paths + [record[3..]] + [left[1]];
      }
    }
  }

  // -------------------------------------------------------------------- the printer

  /** What git prints for one changed path: the two states, the path and, for a rename or copy,
      the path it came from. */
  datatype Entry = Entry(x: char, y: char, path: string, source: Option<string>) {
    predicate Valid() {
      && x != NUL && y != NUL && path != "" && NUL !in path
      && (source.Some? <==> x in {'R', 'C'} || y in {'R', 'C'})
      && (source.Some? ==> source.value != "" && NUL !in source.value)
    }

    function Record(): string {
      [x, y, ' '] + path
    }

    function Paths(): seq<string> {
      if source.Some? then [path, source.value] else [path]
    }

    function Printed(): string {
      Record() + [NUL] + if source.Some? then source.value + [NUL] else []
    }
  }

  function Print(entries: seq<Entry>): string {
    if entries == [] then "" else entries[0].Printed() + Print(entries[1..])
  }

  function AllPaths(entries: seq<Entry>): seq<string> {
    if entries == [] then [] else entries[0].Paths() + AllPaths(entries[1..])
  }

  lemma {:induction false} SplitAtNul(s: string, rest: string)
    requires NUL !in s
    ensures SplitNul(s + [NUL] + rest) == [s] + SplitNul(rest)
  {
    if s == "" {
      assert ("" + [NUL] + rest)[1..] == rest;
    } else {
      assert s[0] in s && forall c | c in s[1..] :: c in s;
      SplitAtNul(s[1..], rest);
      assert (s + [NUL] + rest)[1..] == s[1..] + [NUL] + rest;
      assert [s[0]] + s[1..] == s;
    }
  }

  lemma SplitPrinted(e: Entry, rest: string)
    requires e.Valid()
    ensures SplitNul(e.Printed() + rest)
         == [e.Record()] + (if e.source.Some? then [e.source.value] else []) + SplitNul(rest)
  {
    assert NUL !in e.Record();
    if e.source.Some? {
      SplitAtTwo(e.Record(), e.source.value, rest);
      assert e.Printed() == e.Record() + [NUL] + (e.source.value + [NUL]);
    } else {
      SplitAtNul(e.Record(), rest);
      assert e.Printed() == e.Record() + [NUL];
    }
  }

  lemma SplitAtTwo(s: string, t: string, rest: string)
    requires NUL !in s && NUL !in t
    ensures SplitNul(s + [NUL] + (t + [NUL]) + rest) == [s] + [t] + SplitNul(rest)
  {
    SplitAtNul(s, t + [NUL] + rest);
    SplitAtNul(t, rest);
    TwoRegrouped(s + [NUL], t + [NUL], rest);
    TwoRegrouped([s], [t], SplitNul(rest));
  }

  lemma TwoRegrouped<T>(a: seq<T>, b: seq<T>, c: seq<T>)
    ensures a + b + c == a + (b + c)
  {
  }

  lemma ReadEntry(e: Entry, rest: seq<string>)
    requires e.Valid()
    ensures Read([e.Record()] + (if e.source.Some? then [e.source.value] else []) + rest) == Before(e.Paths(), Read(rest))
  {
    var records := [e.Record()] + (if e.source.Some? then [e.source.value] else []) + rest;
    assert e.Record()[3..] == e.path;
    assert !IsMalformed(e.Record());
    if e.source.Some? {
      assert records[2..] == rest && records[1] == e.source.value;
    } else {
      assert records[1..] == rest;
    }
  }

  /** Whatever follows printed entries, they are read back first, each with both sides of a
      rename or copy, and the source of a rename is never taken for a record. */
  lemma {:induction false} PrintedIsReadBack(entries: seq<Entry>, rest: string)
    requires forall e | e in entries :: e.Valid()
    ensures Read(SplitNul(Print(entries) + rest)) == Before(AllPaths(entries), Read(SplitNul(rest)))
  {
    if entries == [] {
      assert Print(entries) + rest == rest;
    } else {
      PrintedIsReadBack(entries[1..], rest);
      SplitPrinted(entries[0], Print(entries[1..]) + rest);
      assert Print(entries) + rest == entries[0].Printed() + (Print(entries[1..]) + rest);
      ReadEntry(entries[0], SplitNul(Print(entries[1..]) + rest));
      BeforeTwice(entries[0].Paths(), AllPaths(entries[1..]), Read(SplitNul(rest)));
    }
  }

  lemma BeforeTwice(a: seq<string>, b: seq<string>, rest: Parsed)
    ensures Before(a, Before(b, rest)) == Before(a + b, rest)
  {
    if rest.Paths? {
      assert a + (b + rest.paths) == a + b + rest.paths;
    }
  }

  /** Parsing inverts printing. */
  lemma ParseInvertsPrint(entries: seq<Entry>)
    requires forall e | e in entries :: e.Valid()
    ensures Read(SplitNul(Print(entries))) == Paths(AllPaths(entries))
  {
    PrintedIsReadBack(entries, "");
    assert Print(entries) + "" == Print(entries);
    assert SplitNul("")[1..] == [];
  }

  /** A malformed record after good ones raises, with that record. */
  lemma MalformedRaises(entries: seq<Entry>, record: string, rest: string)
    requires (forall e | e in entries :: e.Valid()) && IsMalformed(record) && NUL !in record
    ensures Read(SplitNul(Print(entries) + (record + [NUL] + rest))) == Unparseable(record)
  {
    PrintedIsReadBack(entries, record + [NUL] + rest);
    SplitAtNul(record, rest);
  }

  // ------------------------------------------------------------- archiving and stashing

  predicate EndsWith(s: string, end: string) {
    |end| <= |s| && s[|s| - |end|..] == end
  }

  predicate Contains(s: string, part: string) {
    part <= s || (s != "" && Contains(s[1..], part))
  }

  /** Environment files stay where they are. */
  predicate IsProtected(path: string) {
    EndsWith(path, ".env") || Contains(path, "/.env") || EndsWith(path, ".env.production")
  }

  function Those(paths: seq<string>, wanted: string -> bool): (r: seq<string>)
    ensures forall p :: p in r <==> p in paths && wanted(p)
  {
    if paths == [] then []
    else
      var front, last := Those(paths[..|paths| - 1], wanted), paths[|paths| - 1];
      assert forall p :: p in paths <==> p in paths[..|paths| - 1] || p == last;
      if wanted(last) then front + [last] else front
  }

  datatype Action =
    | Archive(paths: seq<string>)
    // everything dirty goes onto the stash but what is excluded
    | Stash(excluded: seq<string>)

  /** What the host answers: is the path on disk, do `tar` and `git stash` succeed. */
  datatype Host = Host(busy: bool, onDisk: string -> bool, tarWorks: bool, stashWorks: bool)

  datatype Outcome = Nothing | Escalated | Done

  /** The worktree part of Guardian.git; `tried` are the commands sent, in order. */
  method CleanWorktree(raw: string, apply: bool, host: Host) returns (tried: seq<Action>, r: Outcome)
    ensures host.busy || !apply || Read(SplitNul(raw)).Unparseable? ==> tried == []
    ensures tried != [] ==> Read(SplitNul(raw)).Paths? && Careful(tried, Read(SplitNul(raw)).paths, host)
    ensures !host.busy && apply && SomethingToPutAway(Read(SplitNul(raw))) ==> tried != []
    ensures r == Done <==> tried != [] && tried[|tried| - 1].Stash? && host.stashWorks
    ensures r == Escalated <==>
      || (!host.busy && Read(SplitNul(raw)).Unparseable?)
      || (tried != [] && if tried[|tried| - 1].Archive? then !host.tarWorks else !host.stashWorks)
  {
    tried, r := [], Nothing;
    if host.busy {
      return;
    }
    if !HasMore(raw) {
      NothingListed(raw);
      return;
    }
    var parsed := Parse(raw);
    if parsed.Unparseable? {
      r := Escalated;
      return;
    }
    var protected := Those(parsed.paths, IsProtected);
    var files := Those(parsed.paths, p => p !in protected);
    if files == [] {
      assert forall p | p in parsed.paths :: p !in files;
      return;
    }
    if apply {
      tried, r := ArchiveAndStash(parsed.paths, protected, files, host);
    }
  }

  method ArchiveAndStash(ghost listed: seq<string>, protected: seq<string>, files: seq<string>, host: Host)
    returns (tried: seq<Action>, r: Outcome)
    requires ExcludesProtected(protected, listed)
    requires files != [] && forall p :: p in files <==> p in listed && !IsProtected(p)
    ensures tried != [] && Careful(tried, listed, host)
    ensures r == Done <==> tried[|tried| - 1].Stash? && host.stashWorks
    ensures r == if host.tarWorks || NothingOnDisk(listed, host) then (if host.stashWorks then Done else Escalated) else Escalated
  {
    var present := Those(files, host.onDisk);
    assert files[0] in listed && !IsProtected(files[0]);
    tried := [];
    if present != [] {
      tried := [Archive(present)];
      assert present[0] in listed && !IsProtected(present[0]) && host.onDisk(present[0]);
      if !host.tarWorks {
        r := Escalated;
        return;
      }
    }
    tried := tried + [Stash(protected)];
    r := if host.stashWorks then Done else Escalated;
  }

  /** `dirty.strip("\0")` */
  predicate HasMore(raw: string) {
    exists i :: 0 <= i < |raw| && raw[i] != NUL
  }

  ghost predicate SomethingToPutAway(parsed: Parsed) {
    parsed.Paths? && exists p :: p in parsed.paths && !IsProtected(p)
  }

  lemma {:induction false} NothingListed(raw: string)
    requires !HasMore(raw)
    ensures Read(SplitNul(raw)) == Paths([])
  {
    if raw != "" {
      assert raw[0] == NUL && forall i | 0 <= i < |raw[1..]| :: raw[1..][i] == raw[i + 1];
      NothingListed(raw[1..]);
    }
  }

  /** There is something unprotected to put away; nothing protected is archived or stashed; and
      the stash comes last, after an archive that succeeded of everything there was to archive. */
  ghost predicate Careful(tried: seq<Action>, listed: seq<string>, host: Host) {
    && (exists p :: p in listed && !IsProtected(p))
    && match |tried| {
       case 1 =>
         if tried[0].Archive? then ArchivesAll(tried[0].paths, listed, host) && !host.tarWorks
         else NothingOnDisk(listed, host) && ExcludesProtected(tried[0].excluded, listed)
       case 2 =>
         && tried[0].Archive? && ArchivesAll(tried[0].paths, listed, host) && host.tarWorks
         && tried[1].Stash? && ExcludesProtected(tried[1].excluded, listed)
       case _ => false
     }
  }

  ghost predicate ArchivesAll(paths: seq<string>, listed: seq<string>, host: Host) {
    forall p :: p in paths <==> p in listed && !IsProtected(p) && host.onDisk(p)
  }

  ghost predicate ExcludesProtected(excluded: seq<string>, listed: seq<string>) {
    forall p :: p in excluded <==> p in listed && IsProtected(p)
  }

  ghost predicate NothingOnDisk(listed: seq<string>, host: Host) {
    forall p | p in listed && !IsProtected(p) :: !host.onDisk(p)
  }

  /** A listed path stands for itself and, if it ends in a slash, for the untracked files below. */
  predicate StandsFor(path: string, file: string) {
    path == file || (EndsWith(path, "/") && path <= file)
  }

  /** The archive takes what its paths stand for; the stash takes what listed paths stand for and
      no excluded one does. */
  ghost predicate Takes(a: Action, listed: seq<string>, file: string) {
    match a
    case Archive(paths) => exists p :: p in paths && StandsFor(p, file)
    case Stash(excluded) =>
      (exists p :: p in listed && StandsFor(p, file)) && !(exists p :: p in excluded && StandsFor(p, file))
  }

  lemma {:induction false} ProtectedBelow(path: string, file: string)
    requires path <= file && Contains(path, "/.env")
    ensures Contains(file, "/.env")
  {
    if !("/.env" <= path) {
      ProtectedBelow(path[1..], file[1..]);
    } else {
      assert "/.env" <= file;
    }
  }

  /** What a protected listed path stands for is protected: a stash that excludes exactly the
      protected paths takes every unprotected listed file, archived or absent from disk. */
  lemma StashIsComplete(listed: seq<string>, excluded: seq<string>, file: string)
    requires ExcludesProtected(excluded, listed) && file in listed && !IsProtected(file)
    ensures Takes(Stash(excluded), listed, file)
  {
    forall p | p in excluded ensures !StandsFor(p, file) {
      if EndsWith(p, "/") && p <= file {
        NotEnvAtEnd(p);
        ProtectedBelow(p, file);
      }
    }
    assert StandsFor(file, file);
  }

  lemma NotEnvAtEnd(path: string)
    requires EndsWith(path, "/") && IsProtected(path)
    ensures Contains(path, "/.env")
  {
    LastOf(path, "/");
    LastOf(path, ".env");
    LastOf(path, ".env.production");
    assert ".env"[3] == 'v' && ".env.production"[14] == 'n';
  }

  lemma LastOf(s: string, end: string)
    requires end != ""
    ensures EndsWith(s, end) ==> s != "" && s[|s| - 1] == end[|end| - 1]
  {
    assert EndsWith(s, end) ==> s[|s| - |end|..][|end| - 1] == end[|end| - 1];
  }

  /** Some listed entry that is protected, or is not, stands for the file. */
  ghost predicate SomeStandsFor(listed: seq<string>, file: string, protected: bool) {
    exists p :: p in listed && IsProtected(p) == protected && StandsFor(p, file)
  }

  ghost predicate SomeOnDiskStandsFor(listed: seq<string>, file: string, host: Host) {
    exists p :: p in listed && host.onDisk(p) && !IsProtected(p) && StandsFor(p, file)
  }

  /** When a file moves: the archive takes it exactly when an unprotected entry of the listing that is
      on disk stands for it, and the stash exactly when an unprotected entry does and no protected one. */
  lemma FileMovesIff(listed: seq<string>, archived: seq<string>, excluded: seq<string>, host: Host, file: string)
    requires ArchivesAll(archived, listed, host) && ExcludesProtected(excluded, listed)
    ensures Takes(Archive(archived), listed, file) <==> SomeOnDiskStandsFor(listed, file, host)
    ensures Takes(Stash(excluded), listed, file) <==>
              SomeStandsFor(listed, file, false) && !SomeStandsFor(listed, file, true)
  {
    if Takes(Stash(excluded), listed, file) {
      var p :| p in listed && StandsFor(p, file);
      assert p !in excluded;
    }
  }

  /** An untracked directory that is listed as one entry and holds the file; it is hidden when a part of
      its path starts like an environment file. */
  predicate Holds(directory: string, file: string, hidden: bool) {
    EndsWith(directory, "/") && directory <= file && Contains(directory, "/.env") == hidden
  }

  ghost predicate SomeHolds(listed: seq<string>, file: string, hidden: bool) {
    exists p :: p in listed && Holds(p, file, hidden)
  }

  /** When an environment file moves in spite of its name: the archive takes it exactly when a directory
      that is on disk, not hidden and listed as one entry holds it, and the stash exactly when some
      directory does that is not hidden, none that is hidden, and the file itself is not listed. */
  lemma EnvFileMovesIff(listed: seq<string>, archived: seq<string>, excluded: seq<string>, host: Host, file: string)
    requires ArchivesAll(archived, listed, host) && ExcludesProtected(excluded, listed) && IsProtected(file)
    ensures Takes(Archive(archived), listed, file) <==> exists p :: p in listed && host.onDisk(p) && Holds(p, file, false)
    ensures Takes(Stash(excluded), listed, file) <==>
              SomeHolds(listed, file, false) && !SomeHolds(listed, file, true) && file !in listed
  {
    FileMovesIff(listed, archived, excluded, host, file);
    OnDiskDirectories(listed, file, host);
    OpenDirectories(listed, file);
    HiddenOrListed(listed, file);
  }

  lemma StandsForEnvFile(p: string, file: string)
    requires IsProtected(file)
    ensures StandsFor(p, file) <==> p == file || Holds(p, file, IsProtected(p))
    ensures Holds(p, file, true) ==> IsProtected(p)
    ensures Holds(p, file, false) ==> !IsProtected(p)
  {
    ProtectedDirectory(p);
  }

  lemma OnDiskDirectories(listed: seq<string>, file: string, host: Host)
    requires IsProtected(file)
    ensures SomeOnDiskStandsFor(listed, file, host) <==> exists p :: p in listed && host.onDisk(p) && Holds(p, file, false)
  {
    if p :| p in listed && host.onDisk(p) && !IsProtected(p) && StandsFor(p, file) {
      StandsForEnvFile(p, file);
      assert Holds(p, file, false);
    }
    if p :| p in listed && host.onDisk(p) && Holds(p, file, false) {
      StandsForEnvFile(p, file);
      assert StandsFor(p, file);
    }
  }

  lemma OpenDirectories(listed: seq<string>, file: string)
    requires IsProtected(file)
    ensures SomeStandsFor(listed, file, false) <==> SomeHolds(listed, file, false)
  {
    if p :| p in listed && !IsProtected(p) && StandsFor(p, file) {
      StandsForEnvFile(p, file);
      assert Holds(p, file, false);
    }
    if p :| p in listed && Holds(p, file, false) {
      StandsForEnvFile(p, file);
      assert StandsFor(p, file);
    }
  }

  lemma HiddenOrListed(listed: seq<string>, file: string)
    requires IsProtected(file)
    ensures SomeStandsFor(listed, file, true) <==> file in listed || SomeHolds(listed, file, true)
  {
    if p :| p in listed && IsProtected(p) && StandsFor(p, file) {
      StandsForEnvFile(p, file);
      assert p == file || Holds(p, file, true);
    }
    if file in listed {
      assert StandsFor(file, file);
    }
    if p :| p in listed && Holds(p, file, true) {
      StandsForEnvFile(p, file);
      assert StandsFor(p, file);
    }
  }

  /** A directory is protected only by a part of its path. */
  lemma ProtectedDirectory(p: string)
    ensures EndsWith(p, "/") ==> (IsProtected(p) <==> Contains(p, "/.env"))
  {
    if EndsWith(p, "/") && IsProtected(p) {
      NotEnvAtEnd(p);
    }
  }

  /** One entry for an untracked directory hides the environment file in it. */
  lemma DirectoryHidesEnvFile()
    ensures Read(SplitNul(Print([Entry('?', '?', "conf/", None)]))) == Paths(["conf/"])
    ensures IsProtected("conf/.env") && !IsProtected("conf/")
    ensures Takes(Archive(["conf/"]), ["conf/"], "conf/.env") && Takes(Stash([]), ["conf/"], "conf/.env")
  {
    var e := Entry('?', '?', "conf/", None);
    assert e.Valid();
    ParseInvertsPrint([e]);
    assert AllPaths([e]) == ["conf/"];
    assert EndsWith("conf/.env", ".env");
    NoSlashEnv();
    assert StandsFor("conf/", "conf/.env");
    assert "conf/" in ["conf/"];
  }

  lemma NoSlashEnv()
    ensures !IsProtected("conf/")
  {
    assert "/.env"[0] == '/' && "conf/"[0] == 'c' && !("/.env" <= "conf/");
    assert "conf/"[1..] == "onf/" && "onf/"[1..] == "nf/" && "nf/"[1..] == "f/" && "f/"[1..] == "/" && "/"[1..] == "";
    assert !Contains("", "/.env") && !Contains("/", "/.env") && !Contains("f/", "/.env") && !Contains("nf/", "/.env");
    assert !Contains("onf/", "/.env") && !Contains("conf/", "/.env");
    LastOf("conf/", ".env");
    assert "conf/"[4] == '/' && ".env"[3] == 'v';
  }

  lemma {:induction false} SlashInPart(s: string, part: string)
    requires Contains(s, part) && part != "" && part[0] == '/'
    ensures '/' in s
  {
    if part <= s {
      assert s[0] == '/';
    } else {
      SlashInPart(s[1..], part);
      assert forall c | c in s[1..] :: c in s;
    }
  }

  /** At the top of the worktree only names that end in `.env` or `.env.production` are protected;
      other variants, which are protected in every directory, are swept there. */
  lemma AtTheTopOnlyTwoEndings(name: string, directory: string)
    requires '/' !in name
    ensures IsProtected(name) <==> EndsWith(name, ".env") || EndsWith(name, ".env.production")
    ensures ".env" <= name ==> IsProtected(directory + "/" + name)
  {
    if Contains(name, "/.env") {
      SlashInPart(name, "/.env");
    }
    if ".env" <= name {
      ContainsAfter(directory, "/" + name, "/.env");
      assert directory + "/" + name == directory + ("/" + name);
    }
  }

  lemma {:induction false} ContainsAfter(front: string, s: string, part: string)
    requires part <= s
    ensures Contains(front + s, part)
  {
    if front == "" {
      assert front + s == s;
    } else {
      assert (front + s)[1..] == front[1..] + s;
      ContainsAfter(front[1..], s, part);
    }
  }
}
