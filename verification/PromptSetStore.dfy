/** Where prompt sets live: rows that mirror what is published, and numbered revisions. */
module PromptSetStore {
  import opened Wrappers
  import opened PromptSets

  type SetId = string
  type Time = int

  datatype RevState = Draft | Published
  datatype Managed = Builder | Application

  datatype Rev = Rev(body: Body, hash: string, state: RevState, client: Option<string>, author: string,
                     created: Time, published: Option<Time>)

  datatype Row = Row(slug: Option<string>, name: string, description: string, retired: bool, managed: Managed,
                     locked: bool, replacedBy: string, current: Option<nat>, createdBy: string)

  datatype RevKey = RevKey(id: SetId, n: nat)

  datatype Store = Store(sets: map<SetId, Row>, revs: map<RevKey, Rev>)

  function Numbers(revs: map<RevKey, Rev>, id: SetId): set<nat> {
    set k | k in revs && k.id == id :: k.n
  }

  predicate IsMax(s: set<nat>, m: nat) {
    (forall x :: x in s ==> x <= m) && (if s == {} then m == 0 else m in s)
  }

  lemma MaxExists(s: set<nat>) returns (m: nat)
    ensures IsMax(s, m)
  {
    if s == {} {
      m := 0;
    } else {
      var x :| x in s;
      m := MaxExists(s - {x});
      assert forall y :: y in s && y != x ==> y in s - {x};
      if s - {x} == {} || m < x {
        m := x;
      }
    }
  }

  /** The number of a set's last revision; 0 before the first. */
  ghost function Last(st: Store, id: SetId): (m: nat)
    ensures IsMax(Numbers(st.revs, id), m)
  {
    assert exists m: nat :: IsMax(Numbers(st.revs, id), m) by {
      var m := MaxExists(Numbers(st.revs, id));
    }
    var m: nat :| IsMax(Numbers(st.revs, id), m);
    m
  }

  ghost predicate HasSlug(st: Store, slug: string) {
    exists id :: id in st.sets && st.sets[id].slug == Some(slug)
  }

  function NewRow(slug: string, name: string, description: string, managed: Managed, user: string): Row {
    Row(if slug == "" then None else Some(slug), name, description, false, managed, false, "", None, user)
  }

  /** `_sync`: the row mirrors the revision that has become current. */
  function Sync(row: Row, n: nat, body: Body): Row {
    row.(current := Some(n), name := body.name, description := body.description, retired := false,
         slug := if body.slug != "" then Some(body.slug) else row.slug)
  }

  ghost function AddRevision(st: Store, id: SetId, rev: Rev): Store
    requires id in st.sets
  {
    var n := Last(st, id) + 1;
    Store(if rev.state.Published? then st.sets[id := Sync(st.sets[id], n, rev.body)] else st.sets, st.revs[RevKey(id, n) := rev])
  }

  predicate IsDraft(st: Store, id: SetId, n: nat) {
    RevKey(id, n) in st.revs && st.revs[RevKey(id, n)].state.Draft?
  }

  function UpdateDraft(st: Store, id: SetId, n: nat, body: Body, hash: string, user: string, now: Time): Store {
    var k := RevKey(id, n);
    if !IsDraft(st, id, n) then st
    else st.(revs := st.revs[k := st.revs[k].(body := body, hash := hash, author := user, created := now)])
  }

  function PublishRevision(st: Store, id: SetId, n: nat, now: Time): Store
    requires IsDraft(st, id, n) ==> id in st.sets
  {
    var k := RevKey(id, n);
    if !IsDraft(st, id, n) then st
    else Store(st.sets[id := Sync(st.sets[id], n, st.revs[k].body)],
               st.revs[k := st.revs[k].(state := Published, published := Some(now))])
  }

  // ---------------------------------------------------------------- the store in memory

  class MemoryPromptSetStore {
    var sets: map<SetId, Row>
    var revs: map<RevKey, Rev>

    constructor ()
      ensures Contents() == Store(map[], map[])
    {
      sets, revs := map[], map[];
    }

    ghost function Contents(): Store
      reads this
    {
      Store(sets, revs)
    }

    method BySlug(slug: string) returns (id: Option<SetId>)
      ensures id.Some? ==> id.value in sets && sets[id.value].slug == Some(slug)
      ensures id.None? ==> !HasSlug(Contents(), slug)
    {
      var todo := sets.Keys;
      while todo != {}
        invariant todo <= sets.Keys
        invariant forall i :: i in sets && i !in todo ==> sets[i].slug != Some(slug)
      {
        var i :| i in todo;
        if sets[i].slug == Some(slug) {
          return Some(i);
        }
        todo := todo - {i};
      }
      return None;
    }

    /** Nothing is written when the slug is taken. */
    method CreateSet(id: SetId, slug: string, name: string, description: string, managed: Managed,
        user: string) returns (ok: bool)
      modifies this`sets
      ensures ok == !(slug != "" && HasSlug(old(Contents()), slug))
      ensures sets == if ok then old(sets)[id := NewRow(slug, name, description, managed, user)] else old(sets)
    {
      if slug != "" {
        var other := BySlug(slug);
        if other.Some? {
          return false;
        }
      }
      sets := sets[id := NewRow(slug, name, description, managed, user)];
      return true;
    }

    method LastRevision(id: SetId) returns (n: nat)
      ensures n == Last(Contents(), id)
    {
      var numbers := set k | k in revs && k.id == id :: k.n;
      n := 0;
      var todo := numbers;
      while todo != {}
        invariant todo <= numbers && IsMax(numbers - todo, n)
      {
        var k :| k in todo;
        if n < k {
          n := k;
        }
        assert forall x :: x in numbers - (todo - {k}) ==> x in numbers - todo || x == k;
        assert k in numbers - (todo - {k});
        todo := todo - {k};
      }
      assert numbers - todo == Numbers(revs, id);
    }

    method Append(id: SetId, rev: Rev) returns (n: nat)
      requires id in sets
      modifies this
      ensures n == Last(old(Contents()), id) + 1 && Contents() == AddRevision(old(Contents()), id, rev)
    {
      n := LastRevision(id);
      n := n + 1;
      revs := revs[RevKey(id, n) := rev];
      if rev.state.Published? {
        sets := sets[id := Sync(sets[id], n, rev.body)];
      }
    }

    method Rewrite(id: SetId, n: nat, body: Body, hash: string, user: string, now: Time) returns (ok: bool)
      modifies this`revs
      ensures ok == IsDraft(old(Contents()), id, n) && Contents() == UpdateDraft(old(Contents()), id, n, body, hash, user, now)
    {
      var k := RevKey(id, n);
      if k !in revs || !revs[k].state.Draft? {
        return false;
      }
      revs := revs[k := revs[k].(body := body, hash := hash, author := user, created := now)];
      return true;
    }

    method Release(id: SetId, n: nat, now: Time) returns (ok: bool)
      requires IsDraft(Contents(), id, n) ==> id in sets
      modifies this
      ensures ok == IsDraft(old(Contents()), id, n) && Contents() == PublishRevision(old(Contents()), id, n, now)
    {
      var k := RevKey(id, n);
      if k !in revs || !revs[k].state.Draft? {
        return false;
      }
      revs := revs[k := revs[k].(state := Published, published := Some(now))];
      sets := sets[id := Sync(sets[id], n, revs[k].body)];
      return true;
    }

    /** `update_set`, of the columns the service changes. */
    method UpdateSet(id: SetId, retire: Option<string>, managed: Option<Managed>,
        locked: Option<bool>) returns (ok: bool)
      modifies this`sets
      ensures ok == (id in old(sets))
      ensures sets == if ok then old(sets)[id := Controlled(old(sets)[id], retire, managed, locked)] else old(sets)
    {
      if id !in sets {
        return false;
      }
      var row := sets[id];
      if retire.Some? {
        row := row.(retired := true, replacedBy := retire.value);
      }
      if managed.Some? {
        row := row.(managed := managed.value);
      }
      if locked.Some? {
        row := row.(locked := locked.value);
      }
      sets := sets[id := row];
      return true;
    }
  }

  function Controlled(row: Row, retire: Option<string>, managed: Option<Managed>, locked: Option<bool>): Row {
    row.(retired := row.retired || retire.Some?, replacedBy := if retire.Some? then retire.value else row.replacedBy,
         managed := if managed.Some? then managed.value else row.managed,
         locked := if locked.Some? then locked.value else row.locked)
  }

  // ---------------------------------------------------------------- the invariant

  /** A set's revisions are numbered 1, 2, 3, ... without a gap. */
  ghost predicate Numbered(st: Store, id: SetId) {
    forall n: nat :: RevKey(id, n) in st.revs <==> 1 <= n <= Last(st, id)
  }

  /** A set's current revision is its highest published one, and its row says what that revision says. */
  ghost predicate Mirrors(st: Store, id: SetId)
    requires id in st.sets
  {
    var row := st.sets[id];
    if row.current.None? then forall n: nat :: RevKey(id, n) in st.revs ==> IsDraft(st, id, n)
    else
      var k := RevKey(id, row.current.value);
      && k in st.revs && st.revs[k].state.Published?
      && (forall n: nat :: n > row.current.value && RevKey(id, n) in st.revs ==> IsDraft(st, id, n))
      && row.name == st.revs[k].body.name && row.description == st.revs[k].body.description
      && (st.revs[k].body.slug != "" ==> row.slug == Some(st.revs[k].body.slug))
  }

  ghost predicate SlugsUnique(st: Store) {
    && (forall i, j :: i in st.sets && j in st.sets && i != j && st.sets[i].slug.Some? ==> st.sets[i].slug != st.sets[j].slug)
    && (forall i :: i in st.sets ==> st.sets[i].slug != Some(""))
  }

  ghost predicate Inv(st: Store) {
    && (forall k :: k in st.revs ==> k.id in st.sets)
    && (forall id :: id in st.sets ==> Numbered(st, id) && Mirrors(st, id))
    && SlugsUnique(st)
  }

  /** A revision nobody can change any more: it is published, or another came after it. */
  ghost predicate Frozen(st: Store, k: RevKey) {
    k in st.revs && (st.revs[k].state.Published? || k.n < Last(st, k.id))
  }

  /** Nothing frozen is changed, and no set goes away. */
  ghost predicate Extends(a: Store, b: Store) {
    && a.sets.Keys <= b.sets.Keys
    && forall k :: Frozen(a, k) ==> Frozen(b, k) && b.revs[k] == a.revs[k]
  }

  lemma ExtendsTrans(a: Store, b: Store, c: Store)
    requires Extends(a, b) && Extends(b, c)
    ensures Extends(a, c)
  {
    hide Frozen;
  }

  lemma MaxOnce(s: set<nat>, m: nat, n: nat)
    requires IsMax(s, m) && IsMax(s, n)
    ensures m == n
  {
  }

  lemma SameKeys(a: Store, b: Store, id: SetId)
    requires Numbers(a.revs, id) == Numbers(b.revs, id)
    ensures Last(a, id) == Last(b, id)
  {
    MaxOnce(Numbers(a.revs, id), Last(a, id), Last(b, id));
  }

  lemma NumbersAfter(revs: map<RevKey, Rev>, k: RevKey, rev: Rev, id: SetId)
    ensures Numbers(revs[k := rev], id) == if id == k.id then Numbers(revs, id) + {k.n} else Numbers(revs, id)
  {
    var more := revs[k := rev];
    forall n | n in Numbers(revs, id) ensures n in Numbers(more, id) {
      assert RevKey(id, n) in more;
    }
    if id == k.id {
      assert k in more;
    }
  }

  /** Appending makes the last number one higher, and no other. */
  lemma LastAfterAdd(st: Store, id: SetId, rev: Rev, q: SetId)
    requires id in st.sets
    ensures Last(AddRevision(st, id, rev), q) == if q == id then Last(st, id) + 1 else Last(st, q)
  {
    var n := Last(st, id) + 1;
    var t := AddRevision(st, id, rev);
    NumbersAfter(st.revs, RevKey(id, n), rev, q);
    if q == id {
      assert IsMax(Numbers(t.revs, id), n);
      MaxOnce(Numbers(t.revs, id), Last(t, id), n);
    } else {
      SameKeys(st, t, q);
    }
  }

  /** Rewriting a revision in place leaves all numbers as they are. */
  lemma LastAfterChange(st: Store, t: Store, q: SetId)
    requires st.revs.Keys == t.revs.Keys
    ensures Last(t, q) == Last(st, q)
  {
    assert Numbers(st.revs, q) == Numbers(t.revs, q);
    SameKeys(st, t, q);
  }

  // ---------------------------------------------------------------- every write keeps it

  /** No other set has this slug. */
  ghost predicate SlugFree(st: Store, id: SetId, slug: string) {
    slug != "" ==> forall j :: j in st.sets && j != id ==> st.sets[j].slug != Some(slug)
  }

  /** A write that adds no revision keeps every numbering, and what it freezes. */
  lemma SameKeysKeep(st: Store, t: Store)
    requires st.revs.Keys == t.revs.Keys
    ensures forall q :: Last(t, q) == Last(st, q)
    ensures forall q :: Numbered(st, q) ==> Numbered(t, q)
    ensures (forall k :: Frozen(st, k) ==> t.revs[k] == st.revs[k]) ==> forall k :: Frozen(st, k) ==> Frozen(t, k)
  {
    hide Last;
    forall q ensures Last(t, q) == Last(st, q) {
      LastAfterChange(st, t, q);
    }
    forall q | Numbered(st, q) ensures Numbered(t, q) {
      forall n: nat ensures RevKey(q, n) in t.revs <==> 1 <= n <= Last(t, q) {}
    }
  }

  /** A change to one set leaves what the others mirror. */
  lemma OthersMirror(st: Store, t: Store, id: SetId, q: SetId)
    requires q != id && q in st.sets && q in t.sets && st.sets[q] == t.sets[q] && Mirrors(st, q)
    requires forall n: nat :: RevKey(q, n) in t.revs <==> RevKey(q, n) in st.revs
    requires forall n: nat :: RevKey(q, n) in st.revs ==> t.revs[RevKey(q, n)] == st.revs[RevKey(q, n)]
    ensures Mirrors(t, q)
  {
    forall n: nat ensures IsDraft(t, q, n) == IsDraft(st, q, n) {}
  }

  lemma CreateKeeps(st: Store, id: SetId, slug: string, name: string, description: string, managed: Managed,
      user: string)
    requires Inv(st) && id !in st.sets && (slug == "" || !HasSlug(st, slug))
    ensures var t := st.(sets := st.sets[id := NewRow(slug, name, description, managed, user)]);
            Inv(t) && Extends(st, t) && Last(t, id) == 0
  {
    hide Last, Numbered, Mirrors, Frozen;
    var t := st.(sets := st.sets[id := NewRow(slug, name, description, managed, user)]);
    SameKeysKeep(st, t);
    NoRevisions(st, id);
    NewSetMirrors(t, id);
    forall q | q in t.sets ensures Numbered(t, q) && Mirrors(t, q) {
      if q != id {
        OthersMirror(st, t, id, q);
      }
    }
    assert forall j :: j in st.sets && slug != "" ==> st.sets[j].slug != Some(slug);
    FrozenThere(st);
  }

  lemma FrozenThere(st: Store)
    ensures forall k :: Frozen(st, k) ==> k in st.revs
  {
  }

  lemma NewSetMirrors(t: Store, id: SetId)
    requires id in t.sets && t.sets[id].current.None? && Last(t, id) == 0 && forall n: nat :: RevKey(id, n) !in t.revs
    ensures Numbered(t, id) && Mirrors(t, id)
  {
    hide Last;
  }

  lemma NoRevisions(st: Store, id: SetId)
    requires Inv(st) && id !in st.sets
    ensures Last(st, id) == 0 && forall n: nat :: RevKey(id, n) !in st.revs
  {
    forall n: nat ensures RevKey(id, n) !in st.revs {
      assert RevKey(id, n) in st.revs ==> RevKey(id, n).id in st.sets;
    }
    assert Numbers(st.revs, id) == {};
  }

  lemma AddKeepsSet(st: Store, id: SetId, rev: Rev, q: SetId)
    requires Inv(st) && id in st.sets && q in st.sets
    ensures var t := AddRevision(st, id, rev); q in t.sets && Numbered(t, q) && Mirrors(t, q)
  {
    hide Last, SlugsUnique;
    LastAfterAdd(st, id, rev, q);
    assert Numbered(st, q) && Mirrors(st, q);
    var t, n := AddRevision(st, id, rev), Last(st, id) + 1;
    forall m: nat ensures RevKey(q, m) in t.revs <==> RevKey(q, m) in st.revs || (q == id && m == n) {}
    assert RevKey(id, n) !in st.revs by { assert Numbered(st, id); }
  }

  lemma AddKeeps(st: Store, id: SetId, rev: Rev)
    requires Inv(st) && id in st.sets && (rev.state.Published? ==> SlugFree(st, id, rev.body.slug))
    ensures Inv(AddRevision(st, id, rev)) && Extends(st, AddRevision(st, id, rev))
  {
    hide Last, Numbered, Mirrors;
    var t := AddRevision(st, id, rev);
    forall q | q in t.sets ensures Numbered(t, q) && Mirrors(t, q) {
      AddKeepsSet(st, id, rev, q);
    }
    assert SlugsUnique(t);
    var n := Last(st, id) + 1;
    FreshNumber(st, id);
    forall k | Frozen(st, k) ensures Frozen(t, k) && t.revs[k] == st.revs[k] {
      LastAfterAdd(st, id, rev, k.id);
    }
  }

  lemma FreshNumber(st: Store, id: SetId)
    requires Inv(st) && id in st.sets
    ensures RevKey(id, Last(st, id) + 1) !in st.revs
  {
    hide Last;
    assert Numbered(st, id);
  }

  lemma DraftKeeps(st: Store, id: SetId, n: nat, body: Body, hash: string, user: string, now: Time)
    requires Inv(st) && n == Last(st, id)
    ensures Inv(UpdateDraft(st, id, n, body, hash, user, now)) && Extends(st, UpdateDraft(st, id, n, body, hash, user, now))
  {
    hide Last, Numbered, Mirrors, SlugsUnique;
    var t := UpdateDraft(st, id, n, body, hash, user, now);
    assert t.revs.Keys == st.revs.Keys;
    SameKeysKeep(st, t);
    forall q | q in t.sets ensures Mirrors(t, q) {
      if q == id {
        DraftMirrors(st, id, n, body, hash, user, now);
      } else {
        OthersMirror(st, t, id, q);
      }
    }
    SameSlugs(st, t);
  }

  lemma SameSlugs(st: Store, t: Store)
    requires SlugsUnique(st) && st.sets.Keys == t.sets.Keys && forall q :: q in st.sets ==> t.sets[q].slug == st.sets[q].slug
    ensures SlugsUnique(t)
  {
  }

  lemma DraftMirrors(st: Store, id: SetId, n: nat, body: Body, hash: string, user: string, now: Time)
    requires id in st.sets && Mirrors(st, id)
    ensures Mirrors(UpdateDraft(st, id, n, body, hash, user, now), id)
  {
    var t := UpdateDraft(st, id, n, body, hash, user, now);
    forall m: nat ensures IsDraft(t, id, m) == IsDraft(st, id, m) {}
  }

  lemma PublishKeeps(st: Store, id: SetId, n: nat, now: Time)
    requires Inv(st) && n == Last(st, id) && IsDraft(st, id, n) && id in st.sets
    requires SlugFree(st, id, st.revs[RevKey(id, n)].body.slug)
    ensures Inv(PublishRevision(st, id, n, now)) && Extends(st, PublishRevision(st, id, n, now))
  {
    hide Last, Numbered, Mirrors;
    var t := PublishRevision(st, id, n, now);
    assert t.revs.Keys == st.revs.Keys;
    SameKeysKeep(st, t);
    forall q | q in t.sets ensures Mirrors(t, q) {
      if q == id {
        PublishedMirrors(st, id, n, now);
      } else {
        OthersMirror(st, t, id, q);
      }
    }
    assert SlugsUnique(t);
  }

  lemma PublishedMirrors(st: Store, id: SetId, n: nat, now: Time)
    requires id in st.sets && Numbered(st, id) && n == Last(st, id) && IsDraft(st, id, n)
    ensures Mirrors(PublishRevision(st, id, n, now), id)
  {
    hide Last;
    var t := PublishRevision(st, id, n, now);
    assert forall m: nat :: RevKey(id, m) in t.revs <==> RevKey(id, m) in st.revs;
  }

  lemma ControlKeeps(st: Store, id: SetId, retire: Option<string>, managed: Option<Managed>, locked: Option<bool>)
    requires Inv(st) && id in st.sets
    ensures var t := st.(sets := st.sets[id := Controlled(st.sets[id], retire, managed, locked)]); Inv(t) && Extends(st, t)
  {
    hide Last, Numbered, Mirrors, SlugsUnique;
    var t := st.(sets := st.sets[id := Controlled(st.sets[id], retire, managed, locked)]);
    SameKeysKeep(st, t);
    forall q | q in t.sets ensures Mirrors(t, q) {
      if q == id {
        ControlMirrors(st, id, retire, managed, locked);
      } else {
        OthersMirror(st, t, id, q);
      }
    }
    SameSlugs(st, t);
  }

  lemma ControlMirrors(st: Store, id: SetId, retire: Option<string>, managed: Option<Managed>, locked: Option<bool>)
    requires id in st.sets && Mirrors(st, id)
    ensures Mirrors(st.(sets := st.sets[id := Controlled(st.sets[id], retire, managed, locked)]), id)
  {
    var t := st.(sets := st.sets[id := Controlled(st.sets[id], retire, managed, locked)]);
    forall m: nat ensures IsDraft(t, id, m) == IsDraft(st, id, m) {}
  }
}
