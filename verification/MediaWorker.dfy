/** The worker's own methods, run without interference: the writer, the two loops that remove
    children, and one job from a finished encode to its recorded outcome. */
module MediaWorker {
  import opened Wrappers
  import opened Text
  import opened Renditions
  import opened MediaJobs
  import opened MediaPublish
  import opened MediaPublishRuns
  import opened MediaPublishHollow

  type Kids = map<ChildUid, Child>

  predicate SameName(c: Child, file: string, name: string) {
    c.parent == file && c.name == name
  }

  ghost function NamesOf(kids: Kids, file: string): set<string> {
    set c | c in kids && kids[c].parent == file :: kids[c].name
  }

  /** The children left after taking away those that satisfy `gone`. */
  ghost function Without(kids: Kids, gone: Child -> bool): Kids {
    map c | c in kids && !gone(kids[c]) :: kids[c]
  }

  predicate Outdated(c: Child, file: string, keep: string) {
    var p := ParseRenditionName(c.name);
    c.parent == file && p.Some? && p.value.version != keep && p.value.fmt !in PUBLISHED_FMTS
  }

  predicate OlderPublished(c: Child, file: string, current: string) {
    c.parent == file && Published(c.name) && Less(ParseRenditionName(c.name).value.version, current)
  }

  /** The core's view of hidden children, as the worker's client sees it. */
  class FileChildren {
    var kids: Kids
    var next: ChildUid

    ghost predicate Valid()
      reads this
    {
      forall c :: c in kids ==> c < next
    }

    method Dir(file: string) returns (listing: seq<ChildUid>)
      ensures forall c :: c in listing <==> c in kids && kids[c].parent == file
    {
      listing := [];
      var rest := set c | c in kids && kids[c].parent == file;
      while rest != {}
        invariant forall c :: c in listing || c in rest <==> c in kids && kids[c].parent == file
        decreases rest
      {
        var c :| c in rest;
        listing, rest := listing + [c], rest - {c};
      }
    }

    method Touch(file: string, name: string) returns (c: ChildUid)
      requires Valid()
      modifies this
      ensures Valid() && c !in old(kids) && kids == old(kids)[c := Child(file, name, 0)]
    {
      c := next;
      kids := kids[c := Child(file, name, 0)];
      next := next + 1;
    }

    method Put(c: ChildUid, size: nat)
      requires Valid() && c in kids
      modifies this
      ensures Valid() && kids == old(kids)[c := old(kids)[c].(size := size)]
    {
      kids := kids[c := kids[c].(size := size)];
    }

    method Remove(c: ChildUid)
      requires Valid() && c in kids
      modifies this
      ensures Valid() && kids == old(kids) - {c}
    {
      kids := kids - {c};
    }
  }

  datatype Rendition = Rendition(fmt: string, ext: string, size: nat)

  /** Write what is not there yet, by name. Nothing that was there changes; the names afterwards
      are the old ones and the requested ones; and what was written is exactly the difference. */
  method WriteRenditions(files: FileChildren, file: string, version: string,
      rends: seq<Rendition>) returns (written: seq<string>)
    requires files.Valid() && forall i :: 0 <= i < |rends| ==> rends[i].size > 0
    modifies files
    ensures files.Valid()
    ensures forall c :: c in old(files.kids) ==> c in files.kids && files.kids[c] == old(files.kids)[c]
    ensures NamesOf(files.kids, file) ==
            NamesOf(old(files.kids), file) + set r | r in rends :: RenditionName(version, r.fmt, r.ext)
    ensures forall n :: n in written <==> n in NamesOf(files.kids, file) && n !in NamesOf(old(files.kids), file)
    ensures forall c :: c in files.kids && c !in old(files.kids) ==> files.kids[c].parent == file && files.kids[c].size > 0
    ensures written == [] ==> files.kids == old(files.kids)
  {
    hide RenditionName;
    ghost var before := files.kids;
    written := [];
    var listing := files.Dir(file);
    var existing: set<string> := set c | c in listing && c in files.kids :: files.kids[c].name;
    assert existing == NamesOf(before, file);
    var i := 0;
    while i < |rends|
      invariant 0 <= i <= |rends| && files.Valid()
      invariant existing == NamesOf(files.kids, file)
      invariant forall c :: c in before ==> c in files.kids && files.kids[c] == before[c]
      invariant existing == NamesOf(before, file) + set k | 0 <= k < i :: RenditionName(version, rends[k].fmt, rends[k].ext)
      invariant forall n :: n in written <==> n in existing && n !in NamesOf(before, file)
      invariant forall c :: c in files.kids && c !in before ==> files.kids[c].parent == file && files.kids[c].size > 0
      invariant written == [] ==> files.kids == before
    {
      var name := RenditionName(version, rends[i].fmt, rends[i].ext);
      if name !in existing {
        ghost var kids := files.kids;
        var c := files.Touch(file, name);
        files.Put(c, rends[i].size);
        assert files.kids == kids[c := Child(file, name, rends[i].size)];
        NamesAfterWrite(kids, c, Child(file, name, rends[i].size));
        written := written + [name];
        existing := existing + {name};
      }
      i := i + 1;
    }
    assert (set k | 0 <= k < i :: RenditionName(version, rends[k].fmt, rends[k].ext)) ==
           set r | r in rends :: RenditionName(version, r.fmt, r.ext);
  }

  lemma NamesAfterWrite(kids: Kids, c: ChildUid, child: Child)
    requires c !in kids
    ensures NamesOf(kids[c := child], child.parent) == NamesOf(kids, child.parent) + {child.name}
  {
    var kids' := kids[c := child];
    forall n | n in NamesOf(kids, child.parent) ensures n in NamesOf(kids', child.parent) {
      var d :| d in kids && kids[d].parent == child.parent && kids[d].name == n;
      assert kids'[d] == kids[d];
    }
    assert kids'[c].name in NamesOf(kids', child.parent);
  }

  /** Drop the unpublished renditions of superseded versions; a removal may fail, and is passed over. */
  method PruneOldVersions(files: FileChildren, file: string, keepVersion: string,
      stuck: set<ChildUid>) returns (removed: seq<string>)
    requires files.Valid()
    modifies files
    ensures files.Valid()
    ensures forall c :: c in files.kids ==> c in old(files.kids) && files.kids[c] == old(files.kids)[c]
    ensures forall c :: c in old(files.kids) ==>
              var child := old(files.kids)[c];
              var p := ParseRenditionName(child.name);
              c in files.kids <==>
                c in stuck || child.parent != file || p.None? || p.value.version == SafeVersion(keepVersion) || p.value.fmt in PUBLISHED_FMTS
    ensures forall n :: n in removed <==> exists c :: c in old(files.kids) && c !in files.kids && old(files.kids)[c].name == n
  {
    hide ParseRenditionName, SafeVersion;
    ghost var before := files.kids;
    var keep := SafeVersion(keepVersion);
    removed := [];
    var listing := files.Dir(file);
    var i := 0;
    while i < |listing|
      invariant 0 <= i <= |listing| && files.Valid()
      invariant files.kids == map c | c in before && (c in stuck || c !in listing[..i] || !Outdated(before[c], file, keep)) :: before[c]
      invariant forall n :: n in removed <==> exists c :: c in before && c !in files.kids && before[c].name == n
    {
      var c := listing[i];
      assert listing[..i + 1] == listing[..i] + [c];
      if c in files.kids {
        var p := ParseRenditionName(files.kids[c].name);
        if p.Some? && p.value.version != keep && p.value.fmt !in PUBLISHED_FMTS && c !in stuck {
          removed := removed + [files.kids[c].name];
          files.Remove(c);
        }
      }
      i := i + 1;
    }
    assert listing[..i] == listing;
  }

  /** A child that a clearing removes: of this name, its size asked for and zero. */
  predicate Clearable(kids: Kids, c: ChildUid, file: string, name: string, deaf: set<ChildUid>) {
    c in kids && c !in deaf && SameName(kids[c], file, name) && kids[c].size == 0
  }

  ghost function LeftByClearing(kids: Kids, file: string, name: string, deaf: set<ChildUid>): Kids {
    map c | c in kids && !Clearable(kids, c, file, name, deaf) :: kids[c]
  }

  /** Remove the same-named children known to hold nothing. For a child in `deaf` asking fails, and it stays. */
  method ClearEmptyChild(files: FileChildren, file: string, name: string, deaf: set<ChildUid>)
    requires files.Valid()
    modifies files
    ensures files.Valid()
    ensures files.kids == LeftByClearing(old(files.kids), file, name, deaf)
  {
    ghost var before := files.kids;
    var listing := files.Dir(file);
    var i := 0;
    while i < |listing|
      invariant 0 <= i <= |listing| && files.Valid()
      invariant files.kids == map c | c in before && !(c in listing[..i] && Clearable(before, c, file, name, deaf)) :: before[c]
    {
      var c := listing[i];
      assert listing[..i + 1] == listing[..i] + [c];
      if c in files.kids && files.kids[c].name == name && c !in deaf && files.kids[c].size == 0 {
        files.Remove(c);
      }
      i := i + 1;
    }
    assert listing[..i] == listing;
  }

  /** The method's loop is a run of the protocol: looking at the listed children one by one, and passing over those
      whose size cannot be asked for, leaves the children that the method leaves. */
  lemma {:induction false} ClearingIsARun(s: State, w: WorkerId, deaf: set<ChildUid>, max: nat) returns (run: seq<Action>)
    requires At(s, w) && s.workers[w].pc.Clearing?
    requires s.workers[w].pc.todo == Same(s.children, s.jobs[s.workers[w].job].key.file, s.workers[w].pc.name)
    ensures var name := s.workers[w].pc.name;
            Reaches(s, run, Move(s, w, Clearing(name, {})).(
                      children := LeftByClearing(s.children, s.jobs[s.workers[w].job].key.file, name, deaf)), max)
  {
    hide Reaches, Same;
    var file, name := s.jobs[s.workers[w].job].key.file, s.workers[w].pc.name;
    run := LooksAtAll(s, w, s.workers[w].pc.todo, deaf, max);
    assert s.children - ToClear(s.children, s.workers[w].pc.todo, deaf) == LeftByClearing(s.children, file, name, deaf) by {
      SameNames(s.children, file, name);
    }
  }

  ghost function ToClear(kids: Kids, todo: set<ChildUid>, deaf: set<ChildUid>): set<ChildUid> {
    set c | c in todo && c in kids && c !in deaf && kids[c].size == 0
  }

  lemma SameNames(kids: Kids, file: string, name: string)
    ensures forall c :: c in Same(kids, file, name) <==> c in kids && SameName(kids[c], file, name)
  {
  }

  lemma {:induction false} LooksAtAll(s: State, w: WorkerId, todo: set<ChildUid>, deaf: set<ChildUid>, max: nat)
      returns (run: seq<Action>)
    requires At(s, w) && s.workers[w].pc.Clearing? && todo == s.workers[w].pc.todo
    ensures Reaches(s, run, Move(s, w, Clearing(s.workers[w].pc.name, {})).(
                      children := s.children - ToClear(s.children, todo, deaf)), max)
    decreases todo
  {
    hide Reaches;
    var name := s.workers[w].pc.name;
    var end := Move(s, w, Clearing(name, {})).(children := s.children - ToClear(s.children, todo, deaf));
    if todo == {} {
      assert s == end by {
        assert s.workers == end.workers && s.children == end.children;
      }
      Stays(s, max);
      run := [];
    } else {
      var c :| c in todo;
      var a := if c in deaf then PassOver(w, c) else ClearOne(w, c);
      var t := Do(s, a, max);
      Step(s, a, t, max);
      var rest := LooksAtAll(t, w, todo - {c}, deaf, max);
      var end' := Move(t, w, Clearing(name, {})).(children := t.children - ToClear(t.children, todo - {c}, deaf));
      assert end' == end by {
        assert end'.workers == end.workers;
        assert end'.children == end.children;
      }
      Then(s, [a], t, rest, end, max);
      run := [a] + rest;
    }
  }

  lemma Stays(s: State, max: nat)
    ensures Reaches(s, [], s, max)
  {
    NoSteps(s, max);
  }

  /** What goes when a version replaces others: renditions of the five published formats, of this file, and of versions
      whose sanitised name sorts before the current one's. */
  lemma OlderPublishedAre(c: Child, file: string, current: string)
    ensures OlderPublished(c, file, current) <==>
              c.parent == file &&
              exists p :: ParseRenditionName(c.name) == Some(p) &&
                p.fmt in ["media", "media_sd", "audio", "audio_opus", "emailposter"] && Less(p.version, current)
  {
    hide ParseRenditionName, Less;
    if OlderPublished(c, file, current) {
      assert ParseRenditionName(c.name) == Some(ParseRenditionName(c.name).value);
    }
  }

  /** And when: no job of this very version is queued or running, and one of its two primary profiles succeeded. */
  lemma RetireRule(t: Table, key: Key)
    ensures MayRetire(t, key) <==>
      && (forall u :: u in t && t[u].key.file == key.file && t[u].key.version == key.version ==>
            t[u].status == Succeeded || t[u].status == Skipped || t[u].status == Failed || t[u].status == Cancelled)
      && (exists u :: u in t && t[u].key.file == key.file && t[u].key.version == key.version && t[u].status == Succeeded &&
            (t[u].key.profile == "video-720p-vp9" || t[u].key.profile == "audio-mp3"))
  {
    forall u | u in t ensures Active(t[u].status) <==> !(t[u].status == Succeeded || t[u].status == Skipped || t[u].status == Failed || t[u].status == Cancelled) {}
  }

  /** The retirement's loop is a run of the protocol: removing the listed children one by one leaves all others. */
  lemma {:induction false} RetiringIsARun(s: State, w: WorkerId, max: nat) returns (run: seq<Action>)
    requires At(s, w) && s.workers[w].pc.Approved?
    ensures var file, current := s.jobs[s.workers[w].job].key.file, s.workers[w].pc.current;
            Reaches(s, run, Move(s, w, Retiring(current, {})).(
                      children := Without(s.children, (c: Child) => OlderPublished(c, file, current))), max)
  {
    hide Reaches, OlderPublished, Published, Less, ParseRenditionName;
    var file, current := s.jobs[s.workers[w].job].key.file, s.workers[w].pc.current;
    var older := Older(s.children, file, current);
    var t := Move(s, w, Retiring(current, older));
    Step(s, ListOlder(w), t, max);
    var rest := RemovesAll(t, w, older, max);
    var end := Move(s, w, Retiring(current, {})).(children := s.children - older);
    MoveTwice(s, w, Retiring(current, older), Retiring(current, {}));
    assert Move(t, w, Retiring(current, {})).(children := t.children - older) == end;
    Then(s, [ListOlder(w)], t, rest, end, max);
    run := [ListOlder(w)] + rest;
    OlderAre(s.children, file, current);
    assert s.children - older == Without(s.children, (c: Child) => OlderPublished(c, file, current));
  }

  lemma OlderAre(kids: Kids, file: string, current: string)
    ensures forall c :: c in Older(kids, file, current) <==> c in kids && OlderPublished(kids[c], file, current)
  {
    hide Less, ParseRenditionName;
  }

  lemma {:induction false} RemovesAll(s: State, w: WorkerId, todo: set<ChildUid>, max: nat) returns (run: seq<Action>)
    requires At(s, w) && s.workers[w].pc.Retiring? && todo == s.workers[w].pc.todo
    ensures Reaches(s, run, Move(s, w, Retiring(s.workers[w].pc.current, {})).(children := s.children - todo), max)
    decreases todo
  {
    hide Reaches;
    var current := s.workers[w].pc.current;
    var end := Move(s, w, Retiring(current, {})).(children := s.children - todo);
    if todo == {} {
      assert s == end by {
        assert s.workers == end.workers && s.children == end.children;
      }
      Stays(s, max);
      run := [];
    } else {
      var c :| c in todo;
      var t := Do(s, RetireOne(w, c), max);
      Step(s, RetireOne(w, c), t, max);
      var rest := RemovesAll(t, w, todo - {c}, max);
      var end' := Move(t, w, Retiring(current, {})).(children := t.children - (todo - {c}));
      assert end' == end by {
        assert end'.workers == end.workers;
        assert end'.children == end.children;
      }
      Then(s, [RetireOne(w, c)], t, rest, end, max);
      run := [RetireOne(w, c)] + rest;
    }
  }

  predicate DonePrimary(j: Job, key: Key) {
    j.key.file == key.file && j.key.version == key.version && Primary(j.key.profile) && j.status.Succeeded?
  }

  /** Once every job of this version is over and its primary rendition succeeded, the published
      copies of older versions go, all of them; before that, none does. */
  method RetireSuperseded(jobs: MemoryMediaJobStore, files: FileChildren, key: Key)
    requires files.Valid() && jobs.Valid()
    modifies files
    ensures files.Valid()
    ensures MayRetire(jobs.Contents(), key) ==>
              files.kids == Without(old(files.kids), (c: Child) => OlderPublished(c, key.file, SafeVersion(key.version)))
    ensures !MayRetire(jobs.Contents(), key) ==> files.kids == old(files.kids)
  {
    hide ParseRenditionName, SafeVersion, Less, Primary, Rows;
    RowKeys(jobs.jobs);
    var primaryDone, k := false, 0;
    while k < |jobs.jobs|
      invariant 0 <= k <= |jobs.jobs|
      invariant forall m :: 0 <= m < k && jobs.jobs[m].key.file == key.file && jobs.jobs[m].key.version == key.version ==>
                  !Active(jobs.jobs[m].status)
      invariant primaryDone <==> exists m :: 0 <= m < k && DonePrimary(jobs.jobs[m], key)
    {
      var j := jobs.jobs[k];
      assert DonePrimary(j, key) <==> j.key.file == key.file && j.key.version == key.version && Primary(j.key.profile) && j.status.Succeeded?;
      if j.key.file == key.file && j.key.version == key.version {
        if Active(j.status) {
          assert j.uid in jobs.Contents();
          return;
        }
        primaryDone := primaryDone || (Primary(j.key.profile) && j.status.Succeeded?);
      }
      k := k + 1;
    }
    if !primaryDone {
      return;
    }
    ghost var m :| 0 <= m < |jobs.jobs| && DonePrimary(jobs.jobs[m], key);
    assert jobs.jobs[m].uid in jobs.Contents();
    assert MayRetire(jobs.Contents(), key);
    RemoveOlder(files, key.file, SafeVersion(key.version));
  }

  method RemoveOlder(files: FileChildren, file: string, current: string)
    requires files.Valid()
    modifies files
    ensures files.Valid()
    ensures files.kids == Without(old(files.kids), (c: Child) => OlderPublished(c, file, current))
  {
    hide ParseRenditionName, Less;
    ghost var before := files.kids;
    var listing := files.Dir(file);
    var i := 0;
    while i < |listing|
      invariant 0 <= i <= |listing| && files.Valid()
      invariant files.kids == map c | c in before && (c !in listing[..i] || !OlderPublished(before[c], file, current)) :: before[c]
    {
      var c := listing[i];
      assert listing[..i + 1] == listing[..i] + [c];
      if c in files.kids {
        var p := ParseRenditionName(files.kids[c].name);
        if p.Some? && p.value.fmt in PUBLISHED_FMTS && Less(p.value.version, current) {
          files.Remove(c);
        }
      }
      i := i + 1;
    }
    assert listing[..i] == listing;
  }

  /** `_end`: the outcome of a job still running is recorded, and older copies are retired if
      that completes the version; a job cancelled meanwhile keeps its record. */
  method EndJob(jobs: MemoryMediaJobStore, files: FileChildren, job: Job, status: Status, report: Report,
      now: Time) returns (r: Status)
    requires jobs.Valid() && files.Valid() && Terminal(status)
    requires job.uid in jobs.Contents() ==> jobs.Contents()[job.uid].key == job.key
    modifies jobs, files
    ensures jobs.Valid() && files.Valid()
    ensures jobs.Contents() == SqlFinish(old(jobs.Contents()), job.uid, status, report, now)
    ensures r == if job.uid in old(jobs.Contents()) && old(jobs.Contents())[job.uid].status.Running? then status else Cancelled
    ensures files.kids == if job.uid in old(jobs.Contents()) && old(jobs.Contents())[job.uid].status.Running? && MayRetire(jobs.Contents(), job.key)
                          then Without(old(files.kids), (c: Child) => OlderPublished(c, job.key.file, SafeVersion(job.key.version)))
                          else old(files.kids)
  {
    hide SafeVersion, OlderPublished;
    var done := jobs.Finish(job.uid, status, report, now);
    if done.value.None? {
      return Cancelled;
    }
    RetireSuperseded(jobs, files, job.key);
    return status;
  }

  /** The row says how the job ended and why, and nothing else has changed in the table. */
  ghost predicate Recorded(t: Table, t': Table, u: Uid, status: Status, why: string, now: Time) {
    && u in t && OnlyRow(t, t', u)
    && t'[u].status == status && t'[u].finishedAt == Some(now) && t'[u].facts.detail == Some(why)
    && SameBut(t[u], t'[u], {StatusOf, FinishedAt, Detail})
  }

  /** The row says that the job succeeded under this name, with the facts of its encode, and nothing else has changed
      in the table. */
  ghost predicate RowSays(t: Table, t': Table, u: Uid, name: string, r: Report, now: Time) {
    && u in t && OnlyRow(t, t', u)
    && var j, j' := t[u], t'[u];
       && j'.status == Succeeded && j'.finishedAt == Some(now) && j'.progress == 100 && j'.facts.renditionName == Some(name)
       && Reported(r.sourceBytes, j.facts.sourceBytes, j'.facts.sourceBytes)
       && Reported(r.outputBytes, j.facts.outputBytes, j'.facts.outputBytes)
       && Reported(r.durationMs, j.facts.durationMs, j'.facts.durationMs)
       && Reported(r.width, j.facts.width, j'.facts.width) && Reported(r.height, j.facts.height, j'.facts.height)
       && Reported(r.encoder, j.facts.encoder, j'.facts.encoder) && Reported(r.detail, j.facts.detail, j'.facts.detail)
       && SameBut(j, j', {StatusOf, FinishedAt, Progress, HeartbeatAt} + OUTCOME)
  }

  lemma EndIsRecorded(t: Table, u: Uid, status: Status, why: string, now: Time)
    requires ByUid(t) && u in t && status != Succeeded
    ensures var t' := SqlFinish(t, u, status, NO_REPORT.(detail := Given(Some(why))), now);
            if t[u].status == Running then Recorded(t, t', u, status, why, now) else t' == t
  {
    hide SqlFinish;
    FinishSets(t, u, status, NO_REPORT.(detail := Given(Some(why))), now);
  }

  lemma SuccessIsSaid(t: Table, u: Uid, name: string, r: Report, now: Time)
    requires ByUid(t) && u in t
    ensures var t' := SqlFinish(t, u, Succeeded, r.(renditionName := Given(Some(name))), now);
            if t[u].status == Running then RowSays(t, t', u, name, r, now) && t'[u].heartbeatAt == t[u].heartbeatAt else t' == t
  {
    hide SqlFinish;
    FinishSets(t, u, Succeeded, r.(renditionName := Given(Some(name))), now);
  }

  /** A beat before the outcome shows in the heartbeat alone: success sets the progress. */
  lemma SaidAfterBeat(t: Table, u: Uid, pct: int, name: string, r: Report, t': Table, now: Time)
    requires ByUid(t) && u in t && RowSays(SqlHeartbeat(t, u, pct, now), t', u, name, r, now)
    ensures RowSays(t, t', u, name, r, now)
  {
    hide SqlHeartbeat;
    HeartbeatSets(t, u, pct, now);
  }

  lemma BeatAlone(t: Table, u: Uid, pct: int, now: Time)
    requires ByUid(t) && u in t
    ensures var t' := SqlHeartbeat(t, u, pct, now);
            && OnlyRow(t, t', u) && SameBut(t[u], t'[u], {HeartbeatAt, Progress})
            && ByUid(t') && t'[u].key == t[u].key && t'[u].status == t[u].status && t'[u].heartbeatAt == Some(now)
  {
    hide SqlHeartbeat;
    HeartbeatSets(t, u, pct, now);
  }

  lemma ContentsByUid(jobs: MemoryMediaJobStore)
    requires jobs.Valid()
    ensures ByUid(jobs.Contents())
  {
    RowKeys(jobs.jobs);
  }

  /** The name is taken by empty children alone, and the size of one of them cannot be asked for. */
  ghost predicate Hidden(kids: Kids, file: string, name: string, deaf: set<ChildUid>) {
    && (exists c :: c in kids && c in deaf && SameName(kids[c], file, name))
    && forall c :: c in kids && SameName(kids[c], file, name) ==> kids[c].size == 0
  }

  method FinishNamed(jobs: MemoryMediaJobStore, files: FileChildren, job: Job, facts: Report, name: string,
      now: Time) returns (r: Status)
    requires jobs.Valid() && files.Valid() && job.uid in jobs.Contents() && jobs.Contents()[job.uid].key == job.key
    modifies jobs, files
    ensures jobs.Valid() && files.Valid()
    ensures r.Succeeded? <==> old(jobs.Contents())[job.uid].status.Running?
    ensures r == if old(jobs.Contents())[job.uid].status == Running then Succeeded else Cancelled
    ensures r == Succeeded ==>
              RowSays(old(jobs.Contents()), jobs.Contents(), job.uid, name, facts, now) &&
              jobs.Contents()[job.uid].heartbeatAt == old(jobs.Contents())[job.uid].heartbeatAt
    ensures r != Succeeded ==> jobs.Contents() == old(jobs.Contents())
    ensures forall c :: c in files.kids ==> c in old(files.kids) && files.kids[c] == old(files.kids)[c]
    ensures forall c :: c in old(files.kids) && !OlderPublished(old(files.kids)[c], job.key.file, SafeVersion(job.key.version)) ==>
              c in files.kids && files.kids[c] == old(files.kids)[c]
  {
    hide SafeVersion, OlderPublished, MayRetire, SqlFinish, RowSays, MemoryMediaJobStore.Valid;
    ContentsByUid(jobs);
    SuccessIsSaid(jobs.Contents(), job.uid, name, facts, now);
    r := EndJob(jobs, files, job, Succeeded, facts.(renditionName := Given(Some(name))), now);
  }

  /** Clear, write and finish. A success means that the child of that name is stored, whatever an
      earlier attempt left behind, unless the name was taken by empty children and one of them could not be sized up. */
  method PublishEncoded(jobs: MemoryMediaJobStore, files: FileChildren, job: Job, ext: string, size: nat,
      facts: Report, deaf: set<ChildUid>, now: Time) returns (r: Status)
    requires jobs.Valid() && files.Valid() && job.uid in jobs.Contents() && jobs.Contents()[job.uid].key == job.key
    requires Fmt(job.key.profile).Some? && ext != "" && '.' !in ext && size > 0
    modifies jobs, files
    ensures jobs.Valid() && files.Valid()
    ensures r == if old(jobs.Contents())[job.uid].status == Running then Succeeded else Cancelled
    ensures r != Succeeded ==> jobs.Contents() == old(jobs.Contents())
    ensures r.Succeeded? ==>
      var name := RenditionName(job.key.version, Fmt(job.key.profile).value, ext);
      RowSays(old(jobs.Contents()), jobs.Contents(), job.uid, name, facts, now) &&
      jobs.Contents()[job.uid].heartbeatAt == old(jobs.Contents())[job.uid].heartbeatAt &&
      (Stored(files.kids, job.key.file, name) <==> !Hidden(old(files.kids), job.key.file, name, deaf))
  {
    hide RenditionName, SafeVersion, Published, Less, MayRetire, OlderPublished;
    var file, fmt := job.key.file, Fmt(job.key.profile).value;
    var name := RenditionName(job.key.version, fmt, ext);
    ghost var before := files.kids;
    ClearEmptyChild(files, file, name, deaf);
    ghost var cleared := files.kids;
    var written := WriteRenditions(files, file, job.key.version, [Rendition(fmt, ext, size)]);
    ghost var kids := files.kids;
    assert [Rendition(fmt, ext, size)][0] in [Rendition(fmt, ext, size)];
    assert written != [] ==> written[0] in written;
    WrittenUnlessHidden(before, cleared, kids, file, name, deaf);
    r := FinishNamed(jobs, files, job, facts, name, now);
    NotOlderThanItself(job.key, ext);
    StoredIff(kids, files.kids, file, name, SafeVersion(job.key.version));
  }

  /** Clearing, then writing: the name ends up stored unless it was hidden. */
  lemma WrittenUnlessHidden(before: Kids, cleared: Kids, kids: Kids, file: string, name: string, deaf: set<ChildUid>)
    requires cleared == LeftByClearing(before, file, name, deaf)
    requires forall c :: c in cleared ==> c in kids && kids[c] == cleared[c]
    requires NamesOf(kids, file) == NamesOf(cleared, file) + {name}
    requires forall c :: c in kids && c !in cleared ==> kids[c].parent == file && kids[c].size > 0
    requires name in NamesOf(cleared, file) ==> kids == cleared
    ensures Stored(kids, file, name) <==> !Hidden(before, file, name, deaf)
  {
    if Hidden(before, file, name, deaf) {
      var c :| c in before && c in deaf && SameName(before[c], file, name);
      assert c in cleared && cleared[c].name == name;
      assert kids == cleared;
    } else if name in NamesOf(cleared, file) {
      var c :| c in cleared && cleared[c].parent == file && cleared[c].name == name;
      if cleared[c].size == 0 {
        assert c in deaf;
        var d :| d in before && SameName(before[d], file, name) && before[d].size > 0;
        assert kids[d] == before[d];
      }
    } else {
      assert name in NamesOf(kids, file);
      var c :| c in kids && kids[c].parent == file && kids[c].name == name;
      assert c !in cleared;
    }
  }

  lemma StoredIff(kids: Kids, left: Kids, file: string, name: string, current: string)
    requires forall c :: c in left ==> c in kids && left[c] == kids[c]
    requires forall c :: c in kids && !OlderPublished(kids[c], file, current) ==> c in left
    requires forall c: Child :: c.name == name ==> !OlderPublished(c, file, current)
    ensures Stored(left, file, name) <==> Stored(kids, file, name)
  {
    hide OlderPublished;
    if Stored(kids, file, name) {
      var c :| c in kids && kids[c].parent == file && kids[c].name == name && kids[c].size > 0;
      assert left[c] == kids[c];
    }
  }

  datatype Encode =
    | EncodeCancelled
    | EncodeSkipped(why: string)
    | EncodeFailed(why: string)
    | EncodeOk(ext: string, size: nat, facts: Report)

  /** One job after its encode, alone. A skip and a failure are recorded as such, with the reason; an erased file ends the
      job as cancelled; a cancelled encode leaves the record of its cancellation. What is not running keeps its record.
      A run that ends otherwise than in success stores nothing new. */
  method EncodeAndWrite(jobs: MemoryMediaJobStore, files: FileChildren, job: Job, result: Encode, pct: int, erased: bool,
      deaf: set<ChildUid>, now: Time) returns (r: Status)
    requires jobs.Valid() && files.Valid() && job.uid in jobs.Contents() && jobs.Contents()[job.uid].key == job.key
    requires Fmt(job.key.profile).Some?
    requires result.EncodeOk? ==> result.ext != "" && '.' !in result.ext && result.size > 0
    modifies jobs, files
    ensures jobs.Valid() && files.Valid()
    ensures result.EncodeCancelled? ==> r == Cancelled && jobs.Contents() == old(jobs.Contents())
    ensures old(jobs.Contents())[job.uid].status == Running ==>
      var t, t' := old(jobs.Contents()), jobs.Contents();
      && (result.EncodeSkipped? ==> r == Skipped && Recorded(t, t', job.uid, Skipped, result.why, now))
      && (result.EncodeFailed? ==>
            r == Failed && Recorded(t, t', job.uid, Failed, if result.why == "" then "encode failed" else result.why, now))
      && (result.EncodeOk? && erased ==> r == Cancelled && Recorded(t, t', job.uid, Cancelled, "the file was erased", now))
      && (result.EncodeOk? && !erased ==> r == Succeeded)
    ensures old(jobs.Contents())[job.uid].status != Running ==>
      r == Cancelled && OnlyRow(old(jobs.Contents()), jobs.Contents(), job.uid) &&
      SameBut(old(jobs.Contents())[job.uid], jobs.Contents()[job.uid], {HeartbeatAt, Progress})
    ensures r == Succeeded ==>
      var name := RenditionName(job.key.version, Fmt(job.key.profile).value, result.ext);
      RowSays(old(jobs.Contents()), jobs.Contents(), job.uid, name, result.facts, now) &&
      jobs.Contents()[job.uid].heartbeatAt == Some(now) &&
      (Stored(files.kids, job.key.file, name) <==> !Hidden(old(files.kids), job.key.file, name, deaf))
    ensures !result.EncodeOk? || erased || old(jobs.Contents())[job.uid].status.Cancelled? ==>
      forall c :: c in files.kids ==> c in old(files.kids) && files.kids[c] == old(files.kids)[c]
  {
    hide RenditionName, SafeVersion, OlderPublished, MayRetire, Stored, SqlFinish, SqlHeartbeat, Hidden, Recorded, RowSays,
      SameBut, OnlyRow, MemoryMediaJobStore.Valid;
    ContentsByUid(jobs);
    NothingElse(jobs.Contents(), job.uid);
    match result {
      case EncodeCancelled =>
        r := Cancelled;
      case EncodeSkipped(why) =>
        EndIsRecorded(jobs.Contents(), job.uid, Skipped, why, now);
        r := EndJob(jobs, files, job, Skipped, NO_REPORT.(detail := Given(Some(why))), now);
      case EncodeFailed(why) =>
        var said := if why != "" then why else "encode failed";
        EndIsRecorded(jobs.Contents(), job.uid, Failed, said, now);
        r := EndJob(jobs, files, job, Failed, NO_REPORT.(detail := Given(Some(said))), now);
      case EncodeOk(ext, size, facts) =>
        if erased {
          EndIsRecorded(jobs.Contents(), job.uid, Cancelled, "the file was erased", now);
          r := EndJob(jobs, files, job, Cancelled, NO_REPORT.(detail := Given(Some("the file was erased"))), now);
          return;
        }
        r := BeatAndPublish(jobs, files, job, ext, size, facts, pct, deaf, now);
    }
  }

  /** The last look for a cancellation, with the progress the encoder last reported, and then the publishing. */
  method BeatAndPublish(jobs: MemoryMediaJobStore, files: FileChildren, job: Job, ext: string, size: nat, facts: Report,
      pct: int, deaf: set<ChildUid>, now: Time) returns (r: Status)
    requires jobs.Valid() && files.Valid() && job.uid in jobs.Contents() && jobs.Contents()[job.uid].key == job.key
    requires Fmt(job.key.profile).Some? && ext != "" && '.' !in ext && size > 0
    modifies jobs, files
    ensures jobs.Valid() && files.Valid()
    ensures r == if old(jobs.Contents())[job.uid].status == Running then Succeeded else Cancelled
    ensures r == Succeeded ==>
      var name := RenditionName(job.key.version, Fmt(job.key.profile).value, ext);
      RowSays(old(jobs.Contents()), jobs.Contents(), job.uid, name, facts, now) &&
      jobs.Contents()[job.uid].heartbeatAt == Some(now) &&
      (Stored(files.kids, job.key.file, name) <==> !Hidden(old(files.kids), job.key.file, name, deaf))
    ensures r != Succeeded ==>
      OnlyRow(old(jobs.Contents()), jobs.Contents(), job.uid) &&
      SameBut(old(jobs.Contents())[job.uid], jobs.Contents()[job.uid], {HeartbeatAt, Progress})
    ensures old(jobs.Contents())[job.uid].status == Cancelled ==> files.kids == old(files.kids)
  {
    hide RenditionName, SafeVersion, OlderPublished, MayRetire, Stored, SqlFinish, SqlHeartbeat, Hidden, RowSays, SameBut, OnlyRow,
      MemoryMediaJobStore.Valid, Fmt;
    ContentsByUid(jobs);
    ghost var t := jobs.Contents();
    BeatAlone(t, job.uid, pct, now);
    BeatKeepsKeys(t, job.uid, pct, now);
    var status := jobs.Heartbeat(job.uid, pct, now);
    if status.Cancelled? {
      return Cancelled;
    }
    r := PublishEncoded(jobs, files, job, ext, size, facts, deaf, now);
    if r == Succeeded {
      SaidAfterBeat(t, job.uid, pct, RenditionName(job.key.version, Fmt(job.key.profile).value, ext), facts, jobs.Contents(), now);
    }
  }

  lemma BeatKeepsKeys(t: Table, u: Uid, pct: int, now: Time)
    requires ByUid(t) && u in t
    ensures u in SqlHeartbeat(t, u, pct, now)
  {
  }

  lemma NothingElse(t: Table, u: Uid)
    requires u in t
    ensures OnlyRow(t, t, u) && SameBut(t[u], t[u], {HeartbeatAt, Progress})
  {
  }

  lemma NotOlderThanItself(key: Key, ext: string)
    requires Fmt(key.profile).Some? && ext != "" && '.' !in ext
    ensures forall c: Child :: c.name == RenditionName(key.version, Fmt(key.profile).value, ext) ==>
              !OlderPublished(c, key.file, SafeVersion(key.version))
  {
    NameRoundTrip(key.version, Fmt(key.profile).value, ext);
    LessTotal(SafeVersion(key.version), SafeVersion(key.version));
  }
}
