/** What each call on prompt sets does, row by row: exactly when it is refused and why, and what it leaves. */
module PromptSetCalls {
  import opened Wrappers
  import opened JsonTree
  import opened PromptSets
  import opened PromptSetStore
  import opened PromptSetService

  /** Who builds: four roles, in the web application. */
  lemma BuildersAre(who: Who)
    ensures Editor(who) <==>
              "administrators" in who.roles || "tenant_admin" in who.roles || "system_admin" in who.roles || "extraction_editors" in who.roles
    ensures MayBuild(who) <==> Editor(who) && who.client == ""
  {
    var roles := ["administrators", "tenant_admin", "system_admin", "extraction_editors"];
    assert roles[0] in roles && roles[1] in roles && roles[2] in roles && roles[3] in roles;
  }

  /** Another set than `id` has this slug. */
  ghost predicate Elsewhere(st: Store, id: SetId, slug: string) {
    slug != "" && exists q :: q in st.sets && q != id && st.sets[q].slug == Some(slug)
  }

  lemma TakenIsElsewhere(st: Store, id: SetId, slug: string)
    requires SlugsUnique(st)
    ensures TakenByOther(st, id, slug) <==> Elsewhere(st, id, slug)
  {
    if Elsewhere(st, id, slug) {
      var q :| q in st.sets && q != id && st.sets[q].slug == Some(slug);
      SlugOnce(st, q, slug);
    }
  }

  /** Only this revision is new or changed. */
  ghost predicate OnlyRev(st: Store, t: Store, k: RevKey) {
    k in t.revs && t.revs.Keys == st.revs.Keys + {k} && forall q :: q in st.revs && q != k ==> t.revs[q] == st.revs[q]
  }

  ghost predicate OnlySet(st: Store, t: Store, id: SetId) {
    id in t.sets && t.sets.Keys == st.sets.Keys + {id} && forall q :: q in st.sets && q != id ==> t.sets[q] == st.sets[q]
  }

  /** A draft just written: what it defines, who wrote it and when. */
  predicate FreshDraft(c: Config, rev: Rev, body: Body, client: Option<string>, user: string, now: Time) {
    rev.state == Draft && rev.body == body && rev.hash == c.hash(body) && rev.client == client && rev.author == user &&
    rev.created == now && rev.published == None
  }

  predicate FreshRow(row: Row, slug: string, name: string, description: string, managed: Managed, user: string) {
    && (if slug == "" then row.slug == None else row.slug == Some(slug)) && row.name == name && row.description == description
    && !row.retired && row.managed == managed && !row.locked && row.replacedBy == "" && row.createdBy == user
  }

  lemma AddedRevision(st: Store, id: SetId, rev: Rev)
    requires id in st.sets
    ensures var t, k := AddRevision(st, id, rev), RevKey(id, Last(st, id) + 1);
            && OnlyRev(st, t, k) && t.revs[k] == rev && (rev.state == Draft ==> t.sets == st.sets)
            && (rev.state == Published ==> OnlySet(st, t, id) && Mirrored(st.sets[id], t.sets[id], k.n, rev.body))
  {
    hide Last;
  }

  /** The row has taken over a published revision: it is current, its name and description show, its slug if it has
      one, and the set is no longer retired. */
  predicate Mirrored(row: Row, row': Row, n: nat, body: Body) {
    && row'.current == Some(n) && row'.name == body.name && row'.description == body.description && !row'.retired
    && row'.slug == (if body.slug != "" then Some(body.slug) else row.slug)
    && row'.managed == row.managed && row'.locked == row.locked && row'.replacedBy == row.replacedBy && row'.createdBy == row.createdBy
  }

  // ---------------------------------------------------------------- builders' calls

  lemma CreateIff(c: Config, st: Store, who: Who, raw: Json, id: SetId, now: Time)
    requires Inv(st) && id !in st.sets
    ensures var (t, r) := AfterCreate(c, st, who, raw, id, now);
            var body := Normalise(c.limits, raw);
            && (r.Refused? ==> t == st)
            && (!MayBuild(who) <==> r == Refused(403, "forbidden"))
            && (MayBuild(who) && body.Err? <==> r == Refused(400, "invalid_definition"))
            && (MayBuild(who) && body.Ok? && Elsewhere(st, id, body.value.slug) <==> r == Refused(409, "slug_taken"))
            && (MayBuild(who) && body.Ok? && !Elsewhere(st, id, body.value.slug) ==>
                  && r == Done(200, id, 1, true) && OnlySet(st, t, id) && OnlyRev(st, t, RevKey(id, 1))
                  && FreshRow(t.sets[id], body.value.slug, body.value.name, body.value.description, Builder, who.user)
                  && t.sets[id].current == None && FreshDraft(c, t.revs[RevKey(id, 1)], body.value, None, who.user, now))
  {
    hide Normalise, Editor, Last, Numbered, Mirrors;
    if Normalise(c.limits, raw).Ok? {
      MadeIs(c, st, id, Normalise(c.limits, raw).value, who.user, now);
    }
  }

  lemma NoneYet(st: Store, id: SetId, st1: Store)
    requires Inv(st) && id !in st.sets && st1.revs == st.revs
    ensures Last(st1, id) == 0 && Last(st, id) == 0
  {
    NoRevisions(st, id);
    SameKeys(st, st1, id);
  }

  /** What a saved definition leaves: the set's last revision is a draft that defines it; the open draft is rewritten
      where there is one, and else another revision follows. */
  ghost predicate Saved(c: Config, st: Store, t: Store, id: SetId, n: nat, body: Body, client: Option<string>, user: string, now: Time) {
    var open := IsDraft(st, id, Last(st, id));
    && t.sets == st.sets && n == (if open then Last(st, id) else Last(st, id) + 1) && OnlyRev(st, t, RevKey(id, n))
    && var rev := t.revs[RevKey(id, n)];
       && rev.state == Draft && rev.body == body && rev.hash == c.hash(body) && rev.author == user && rev.created == now
       && (open ==> rev.client == st.revs[RevKey(id, n)].client && rev.published == st.revs[RevKey(id, n)].published)
       && (!open ==> rev.client == client && rev.published == None)
  }

  lemma DraftedIs(c: Config, st: Store, id: SetId, body: Body, client: Option<string>, user: string, now: Time)
    requires id in st.sets
    ensures var (t, n) := Drafted(c, st, id, body, client, user, now); Saved(c, st, t, id, n, body, client, user, now)
  {
    hide Last;
  }

  lemma SaveDraftIff(c: Config, st: Store, who: Who, id: SetId, raw: Json, now: Time)
    requires Inv(st)
    ensures var (t, r) := AfterSaveDraft(c, st, who, id, raw, now);
            var body := Normalise(c.limits, raw);
            && (r.Refused? ==> t == st)
            && (!MayBuild(who) <==> r == Refused(403, "forbidden"))
            && (MayBuild(who) && id !in st.sets <==> r == Refused(404, "not_found"))
            && (MayBuild(who) && id in st.sets && body.Err? <==> r == Refused(400, "invalid_definition"))
            && (MayBuild(who) && id in st.sets && body.Ok? && Elsewhere(st, id, body.value.slug) <==> r == Refused(409, "slug_taken"))
            && (MayBuild(who) && id in st.sets && body.Ok? && !Elsewhere(st, id, body.value.slug) ==>
                  r.Done? && r == Done(200, id, r.revision, true) && Saved(c, st, t, id, r.revision, body.value, None, who.user, now))
  {
    hide Normalise, Editor, Last, Numbered, Mirrors, Drafted, Saved, TakenByOther, Elsewhere;
    var body := Normalise(c.limits, raw);
    if body.Ok? && id in st.sets {
      TakenIsElsewhere(st, id, body.value.slug);
      DraftedIs(c, st, id, body.value, None, who.user, now);
    }
  }

  /** Publishing takes the open draft, as it is. */
  lemma PublishIff(st: Store, who: Who, id: SetId, now: Time)
    requires Inv(st)
    ensures var (t, r) := AfterPublish(st, who, id, now);
            var n := Last(st, id);
            && (r.Refused? ==> t == st)
            && (!MayBuild(who) <==> r == Refused(403, "forbidden"))
            && (MayBuild(who) && !IsDraft(st, id, n) <==> r == Refused(409, "no_draft"))
            && (MayBuild(who) && IsDraft(st, id, n) && Elsewhere(st, id, st.revs[RevKey(id, n)].body.slug) <==> r == Refused(409, "slug_taken"))
            && (MayBuild(who) && IsDraft(st, id, n) && !Elsewhere(st, id, st.revs[RevKey(id, n)].body.slug) ==>
                  && r == Done(200, id, n, true) && OnlyRev(st, t, RevKey(id, n)) && id in st.sets && OnlySet(st, t, id)
                  && Mirrored(st.sets[id], t.sets[id], n, st.revs[RevKey(id, n)].body)
                  && var was, rev := st.revs[RevKey(id, n)], t.revs[RevKey(id, n)];
                     && rev.state == Published && rev.published == Some(now) && rev.body == was.body && rev.hash == was.hash
                     && rev.client == was.client && rev.author == was.author && rev.created == was.created)
  {
    hide Editor, Last, Numbered, Mirrors, TakenByOther, Elsewhere;
    var n := Last(st, id);
    if IsDraft(st, id, n) {
      DraftHasSet(st, id, n);
      TakenIsElsewhere(st, id, st.revs[RevKey(id, n)].body.slug);
    }
  }

  /** The row is retired in favour of another, and otherwise as it was. */
  predicate RowRetired(row: Row, row': Row, replacedBy: string) {
    && row'.retired && row'.replacedBy == replacedBy
    && row'.slug == row.slug && row'.name == row.name && row'.description == row.description && row'.managed == row.managed
    && row'.locked == row.locked && row'.current == row.current && row'.createdBy == row.createdBy
  }

  lemma RetiredIs(st: Store, id: SetId, replacedBy: string)
    ensures var (t, r) := Retired(st, id, replacedBy);
            && t.revs == st.revs && (r.Refused? ==> t == st)
            && (id !in st.sets <==> r == Refused(404, "not_found"))
            && (id in st.sets && replacedBy != "" && replacedBy !in st.sets <==> r == Refused(400, "bad_request"))
            && (id in st.sets && (replacedBy == "" || replacedBy in st.sets) ==>
                  r == Done(200, id, 0, true) && OnlySet(st, t, id) && RowRetired(st.sets[id], t.sets[id], replacedBy))
  {
  }

  lemma RetireIff(st: Store, who: Who, id: SetId, replacedBy: string)
    ensures var (t, r) := AfterRetire(st, who, id, replacedBy);
            && t.revs == st.revs && (r.Refused? ==> t == st)
            && (!MayBuild(who) <==> r == Refused(403, "forbidden"))
            && (MayBuild(who) && id !in st.sets <==> r == Refused(404, "not_found"))
            && (MayBuild(who) && id in st.sets && replacedBy != "" && replacedBy !in st.sets <==> r == Refused(400, "bad_request"))
            && (MayBuild(who) && id in st.sets && (replacedBy == "" || replacedBy in st.sets) ==>
                  r == Done(200, id, 0, true) && OnlySet(st, t, id) && RowRetired(st.sets[id], t.sets[id], replacedBy))
  {
    hide Editor, Retired;
    RetiredIs(st, id, replacedBy);
  }

  /** Taking a set over makes editors manage it, giving it back the application; locking is as asked; nothing else. */
  lemma SetControlIff(st: Store, who: Who, id: SetId, takeOver: Option<bool>, locked: Option<bool>)
    ensures var (t, r) := AfterSetControl(st, who, id, takeOver, locked);
            && t.revs == st.revs && (r.Refused? ==> t == st)
            && (!MayBuild(who) <==> r == Refused(403, "forbidden"))
            && (MayBuild(who) && id !in st.sets <==> r == Refused(404, "not_found"))
            && (MayBuild(who) && id in st.sets ==>
                  && r == Done(200, id, 0, true) && OnlySet(st, t, id)
                  && var row, row' := st.sets[id], t.sets[id];
                     && row'.managed == (if takeOver == Some(true) then Builder else if takeOver == Some(false) then Application else row.managed)
                     && row'.locked == (if locked == Some(true) then true else if locked == Some(false) then false else row.locked)
                     && row'.slug == row.slug && row'.name == row.name && row'.description == row.description
                     && row'.retired == row.retired && row'.replacedBy == row.replacedBy && row'.current == row.current
                     && row'.createdBy == row.createdBy)
  {
    hide Editor;
  }

  // ---------------------------------------------------------------- imports

  /** The set an import meets: one with its slug, or else the one listed under its name. */
  ghost predicate Meets(st: Store, named: map<string, SetId>, body: Body, id: SetId) {
    if body.slug != "" && HasSlug(st, body.slug) then id in st.sets && st.sets[id].slug == Some(body.slug)
    else body.name in named && named[body.name] == id
  }

  lemma ExistingIs(st: Store, named: map<string, SetId>, body: Body)
    requires SlugsUnique(st)
    ensures forall q :: Existing(st, named, body) == Some(q) <==> Meets(st, named, body, q)
  {
    var e := Existing(st, named, body);
    forall q ensures e == Some(q) <==> Meets(st, named, body, q) {
      if body.slug != "" && HasSlug(st, body.slug) && Meets(st, named, body, q) {
        SlugOnce(st, q, body.slug);
      }
    }
  }

  /** One definition of a file: revises the set it meets when asked to; else it is a new set, which keeps its name and slug
      unless it met one: it is then called imported, and without its slug where that is taken. */
  lemma ImportOneIs(c: Config, st: Store, who: Who, body: Body, named: map<string, SetId>, revise: bool, id: SetId, now: Time)
    requires Inv(st) && id !in st.sets && forall n :: n in named ==> named[n] in st.sets
    ensures var t := ImportOne(c, st, who, body, named, revise, id, now);
            && (forall q :: revise && Meets(st, named, body, q) ==>
                  exists n :: Saved(c, st, t, q, n, body, None, who.user, now))
            && ((!revise || forall q :: !Meets(st, named, body, q)) ==>
                  && OnlySet(st, t, id) && OnlyRev(st, t, RevKey(id, 1))
                  && var met := exists q :: Meets(st, named, body, q);
                     var name := if !met then body.name else if |body.name| <= 109 then body.name + " (imported)" else (body.name + " (imported)")[..120];
                     var slug := if met && body.slug != "" && HasSlug(st, body.slug) then "" else body.slug;
                     && FreshRow(t.sets[id], slug, name, body.description, Builder, who.user) && t.sets[id].current == None
                     && FreshDraft(c, t.revs[RevKey(id, 1)], body.(name := name, slug := slug), None, who.user, now))
  {
    hide Last, Numbered, Mirrors, Drafted, Saved, HasSlug, Meets, Existing;
    ExistingIs(st, named, body);
    var existing := Existing(st, named, body);
    if existing.Some? && revise {
      MeetsThere(st, named, body, existing.value);
      DraftedIs(c, st, existing.value, body, None, who.user, now);
    } else {
      MadeIs(c, st, id, if existing.Some? then Renamed(st, body) else body, who.user, now);
    }
  }

  lemma MeetsThere(st: Store, named: map<string, SetId>, body: Body, id: SetId)
    requires Meets(st, named, body, id) && forall n :: n in named ==> named[n] in st.sets
    ensures id in st.sets
  {
  }

  lemma MadeIs(c: Config, st: Store, id: SetId, body: Body, user: string, now: Time)
    requires Inv(st) && id !in st.sets
    ensures var t := Made(c, st, id, body, user, now);
            && OnlySet(st, t, id) && OnlyRev(st, t, RevKey(id, 1))
            && FreshRow(t.sets[id], body.slug, body.name, body.description, Builder, user)
            && t.sets[id].current == None && FreshDraft(c, t.revs[RevKey(id, 1)], body, None, user, now)
  {
    hide Last, Numbered, Mirrors, Inv;
    var st1 := st.(sets := st.sets[id := NewRow(body.slug, body.name, body.description, Builder, user)]);
    NoneYet(st, id, st1);
    AddedRevision(st1, id, NewRev(c, body, Draft, None, user, now));
  }

  // ---------------------------------------------------------------- applications' calls

  /** What an application's write leaves: a published revision that the row takes over, or a saved draft. */
  ghost predicate Written(c: Config, st: Store, t: Store, who: Who, id: SetId, n: nat, body: Body, publish: bool, now: Time)
    requires id in st.sets
  {
    if publish then
      && n == Last(st, id) + 1 && OnlyRev(st, t, RevKey(id, n)) && OnlySet(st, t, id) && Mirrored(st.sets[id], t.sets[id], n, body)
      && var rev := t.revs[RevKey(id, n)];
         && rev.state == Published && rev.body == body && rev.hash == c.hash(body) && rev.client == Some(who.client)
         && rev.author == who.user && rev.created == now && rev.published == Some(now)
    else Saved(c, st, t, id, n, body, Some(who.client), who.user, now)
  }

  lemma AppWriteIs(c: Config, st: Store, who: Who, id: SetId, body: Body, publish: bool, status: nat, now: Time)
    requires id in st.sets
    ensures var (t, r) := AppWrite(c, st, who, id, body, publish, status, now);
            r.Done? && r == Done(status, id, r.revision, true) && Written(c, st, t, who, id, r.revision, body, publish, now)
  {
    hide Last, Saved, Drafted;
    if publish {
      AddedRevision(st, id, NewRev(c, body, Published, Some(who.client), who.user, now));
    } else {
      DraftedIs(c, st, id, body, Some(who.client), who.user, now);
    }
  }

  /** A sent definition goes under the slug of the address, less what a file says about itself. */
  lemma SentIs(m: map<string, Json>, slug: string, k: string)
    ensures Sent(Obj(m), slug).Obj?
    ensures var sent := Sent(Obj(m), slug).members;
            Get(sent, k) == if k == "slug" then Str(slug)
                            else if k == "format" || k == "type" || k == "exported" || k == "status" then Null else Get(m, k)
  {
    assert "slug" !in DROPPED by {
      assert "slug"[0] == 's' && "type"[0] == 't' && |"format"| == 6 && |"exported"| == 8 && |"status"| == 6;
    }
  }

  /** The first publication to a slug: a set is made for the application, if it may have another. */
  lemma AppCreateIff(c: Config, st: Store, who: Who, slug: string, raw: Json, base: Option<nat>, force: bool, publish: bool,
      id: SetId, now: Time)
    requires Inv(st) && id !in st.sets && !HasSlug(st, slug)
    ensures var (t, r) := AfterAppPublish(c, st, who, slug, raw, base, force, publish, id, now);
            var body := Normalise(c.limits, Sent(raw, slug));
            var mine := |set q | q in st.sets && st.sets[q].managed == Application|;
            var may := who.client != "" || Editor(who);
            && (r.Refused? ==> t == st)
            && (!may <==> r == Refused(403, "forbidden"))
            && (may && body.Err? <==> r == Refused(400, "invalid_definition"))
            && (may && body.Ok? && mine >= c.appMaxSets <==> r == Refused(429, "app_set_limit"))
            && (may && body.Ok? && mine < c.appMaxSets ==>
                  exists st1: Store ::
                    && st1.revs == st.revs && OnlySet(st, st1, id)
                    && FreshRow(st1.sets[id], slug, body.value.name, body.value.description, Application, who.user) && st1.sets[id].current == None
                    && r.Done? && r == Done(201, id, r.revision, true) && Written(c, st1, t, who, id, r.revision, body.value, publish, now))
  {
    hide Normalise, Sent, Editor, AppWrite, Written, Numbered, Mirrors, HasSlug;
    var body := Normalise(c.limits, Sent(raw, slug));
    assert (set q | q in st.sets && st.sets[q].managed == Application) == set q | q in st.sets && st.sets[q].managed.Application?;
    if body.Ok? {
      var st1 := st.(sets := st.sets[id := NewRow(slug, body.value.name, body.value.description, Application, who.user)]);
      AppWriteIs(c, st1, who, id, body.value, publish, 201, now);
      assert st1.revs == st.revs && OnlySet(st, st1, id) && FreshRow(st1.sets[id], slug, body.value.name, body.value.description, Application, who.user);
    }
  }

  /** A later publication to a set that is there: what stops it, in order; and what it does when nothing does. */
  lemma AppPublishIff(c: Config, st: Store, who: Who, slug: string, raw: Json, base: Option<nat>, force: bool, publish: bool,
      id: SetId, now: Time, q: SetId)
    requires Inv(st) && id !in st.sets && q in st.sets && st.sets[q].slug == Some(slug)
    ensures var (t, r) := AfterAppPublish(c, st, who, slug, raw, base, force, publish, id, now);
            var body, row := Normalise(c.limits, Sent(raw, slug)), st.sets[q];
            var may := who.client != "" || Editor(who);
            && (!may <==> r == Refused(403, "forbidden"))
            && (may && body.Err? <==> r == Refused(400, "invalid_definition"))
            && (may && body.Ok? && row.retired <==> r == Refused(410, "prompt_set_retired"))
            && (may && body.Ok? && !row.retired ==>
                  var same := publish && row.current.Some? && st.revs[RevKey(q, row.current.value)].hash == c.hash(body.value);
                  var foreign := row.managed == Builder && !Editor(who);
                  var moved := base.Some? && !force && base.value != (if row.current == None then 0 else row.current.value);
                  var lately := |set k | k in st.revs && k.id == q && st.revs[k].created >= now - 86400|;
                  && (same ==> r == Done(200, q, row.current.value, false))
                  && (!same && foreign <==> r == Refused(409, "managed_in_builder"))
                  && (!same && !foreign && row.locked <==> r == Refused(409, "locked"))
                  && (!same && !foreign && !row.locked && moved <==> r == Refused(409, "revision_conflict"))
                  && (!same && !foreign && !row.locked && !moved && lately >= c.appRevisionsPerDay <==> r == Refused(429, "revision_limit"))
                  && (!same && !foreign && !row.locked && !moved && lately < c.appRevisionsPerDay ==>
                        r.Done? && r == Done(200, q, r.revision, true) && Written(c, st, t, who, q, r.revision, body.value, publish, now)))
            && (r.Refused? || (r.Done? && !r.changed) ==> t == st)
  {
    hide Normalise, Sent, Editor, AppWrite, Written, Numbered, HasSlug, Inv, Mirrors;
    SlugOnceIn(st, q, slug);
    var body := Normalise(c.limits, Sent(raw, slug));
    if st.sets[q].current.Some? {
      CurrentIsNoZero(st, q);
    }
    if body.Ok? {
      AppWriteIs(c, st, who, q, body.value, publish, 200, now);
    }
  }

  lemma SlugOnceIn(st: Store, q: SetId, slug: string)
    requires Inv(st) && q in st.sets && st.sets[q].slug == Some(slug)
    ensures BySlug(st, slug) == Some(q)
  {
    hide Numbered, Mirrors;
    SlugOnce(st, q, slug);
  }

  lemma CurrentIsNoZero(st: Store, q: SetId)
    requires Inv(st) && q in st.sets && st.sets[q].current.Some?
    ensures st.sets[q].current.value != 0 && RevKey(q, st.sets[q].current.value) in st.revs
  {
    hide Last;
    assert Numbered(st, q) && Mirrors(st, q);
  }

  lemma AppRetireIff(st: Store, who: Who, slug: string, replacedBy: string, q: SetId)
    requires SlugsUnique(st) && q in st.sets && st.sets[q].slug == Some(slug)
    ensures var (t, r) := AfterAppRetire(st, who, slug, replacedBy);
            var may, row := who.client != "" || Editor(who), st.sets[q];
            && t.revs == st.revs && (r.Refused? ==> t == st)
            && (!may <==> r == Refused(403, "forbidden"))
            && (may && row.managed == Builder && !Editor(who) <==> r == Refused(409, "managed_in_builder"))
            && (may && (row.managed == Application || Editor(who)) && row.locked <==> r == Refused(409, "locked"))
            && (may && (row.managed == Application || Editor(who)) && !row.locked ==>
                  if replacedBy == "" || replacedBy in st.sets
                  then r == Done(200, q, 0, true) && OnlySet(st, t, q) && RowRetired(row, t.sets[q], replacedBy)
                  else r == Refused(400, "bad_request"))
  {
    hide Editor, Retired;
    SlugOnce(st, q, slug);
    RetiredIs(st, q, replacedBy);
  }

  /** Which definition a run uses: of a set that is not retired and has published anything, the revision asked for if it
      is published, or else the current one. */
  lemma ResolveIff(st: Store, id: SetId, revision: Option<nat>)
    ensures var r := ResolveForRun(st, id, revision);
            && (id !in st.sets || st.sets[id].current == None ==> r == Err(Refused(404, "not_found")))
            && (id in st.sets && st.sets[id].current.Some? ==>
                  var n := if revision == None then st.sets[id].current.value else revision.value;
                  && (st.sets[id].retired ==> r == Err(Refused(410, "prompt_set_retired")))
                  && (!st.sets[id].retired && RevKey(id, n) in st.revs && st.revs[RevKey(id, n)].state == Published ==>
                        r == Ok((n, st.revs[RevKey(id, n)].body)))
                  && (!st.sets[id].retired && !(RevKey(id, n) in st.revs && st.revs[RevKey(id, n)].state == Published) ==>
                        r == Err(Refused(404, "not_found"))))
  {
  }
}
