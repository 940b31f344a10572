/**
 Prompt resolution through a cache: a version is looked up by its id, or chosen for a template key;
 the answer is cached under a key made of the user and what was asked, and the services that change
 templates and versions delete the entries they may have made stale.

 Operations happen one after another. The cache may lose entries at any time.
 */
module PromptCache {
  import opened Prelude

  const RESOLUTION_PREFIX: string := "ga:ai:prompt-resolution:"
  const VERSION_PREFIX: string := "ga:ai:prompt-version:"
  const MAX_PAGE_LIMIT: nat := 200

  type UserId = string
  type TemplateId = string
  type VersionId = string

  datatype Template = Template(user: UserId, key: string, active: Option<VersionId>)

  /** `content` stands for the prompts, the model and the other settings of a version. */
  datatype Version = Version(template: TemplateId, published: bool, content: string)

  datatype Resolved = Resolved(template: TemplateId, templateKey: string, id: VersionId, version: Version)

  /** `byKey` finds a user's template by its key; `order` has the versions, oldest first: version
      numbers grow with creation. */
  datatype Tables = Tables(
    templates: map<TemplateId, Template>,
    byKey: map<(UserId, string), TemplateId>,
    versions: map<VersionId, Version>,
    order: seq<VersionId>)

  datatype World = World(tables: Tables, cache: map<string, Resolved>)

  datatype Ask = ByVersion(user: UserId, id: VersionId) | ByKey(user: UserId, key: string)

  datatype ActiveChange = Untouched | Cleared | Activated(id: VersionId)

  datatype Error = Conflict | TemplateNotFound | VersionNotFound | NotPublished

  datatype Op =
    | CreateTemplate(user: UserId, key: string, id: TemplateId)
    | UpdateTemplate(user: UserId, id: TemplateId, active: ActiveChange)
    | CreateVersion(user: UserId, template: TemplateId, id: VersionId, published: bool, content: string)
    | UpdateVersion(user: UserId, template: TemplateId, id: VersionId, publish: Option<bool>, rewrite: Option<string>)
    | Resolve(user: UserId, versionId: string, templateKey: string)
    | Forget(key: string)

  // ---------------------------------------------------------------- what resolving computes

  function Within(user: UserId, name: string): string {
    user + [':'] + name
  }

  function KeyFor(ask: Ask): string {
    match ask
    case ByVersion(user, id) => VERSION_PREFIX + Within(user, id)
    case ByKey(user, key) => RESOLUTION_PREFIX + Within(user, key)
  }

  function TemplateOf(t: Tables, user: UserId, id: TemplateId): Option<Template> {
    if id in t.templates && t.templates[id].user == user then Some(t.templates[id]) else None
  }

  /** A template's versions, newest first. */
  function NewestFirst(versions: map<VersionId, Version>, order: seq<VersionId>, template: TemplateId): (r: seq<VersionId>)
    ensures forall v :: v in r <==> v in order && v in versions && versions[v].template == template
  {
    if order == [] then []
    else
      var last, older := order[|order| - 1], NewestFirst(versions, order[..|order| - 1], template);
      if last in versions && versions[last].template == template then [last] + older else older
  }

  function FirstPage(ids: seq<VersionId>): seq<VersionId> {
    ids[..Min(MAX_PAGE_LIMIT, |ids|)]
  }

  function FirstPublished(versions: map<VersionId, Version>, ids: seq<VersionId>): (r: Option<VersionId>)
    ensures r.Some? ==> r.value in ids && r.value in versions && versions[r.value].published
    ensures r.None? ==> forall v :: v in ids && v in versions ==> !versions[v].published
  {
    if ids == [] then None
    else if ids[0] in versions && versions[ids[0]].published then Some(ids[0])
    else FirstPublished(versions, ids[1..])
  }

  /** The active version if it is on the page, else the newest published one, else the newest. */
  function Choose(versions: map<VersionId, Version>, page: seq<VersionId>, active: Option<VersionId>): Option<VersionId> {
    if active.Some? && active.value in page then active
    else if FirstPublished(versions, page).Some? then FirstPublished(versions, page)
    else if page != [] then Some(page[0])
    else None
  }

  function ChosenFor(t: Tables, template: TemplateId, active: Option<VersionId>): Option<VersionId> {
    Choose(t.versions, FirstPage(NewestFirst(t.versions, t.order, template)), active)
  }

  function Load(t: Tables, ask: Ask): Option<Resolved> {
    match ask
    case ByVersion(user, id) =>
      if id !in t.versions then None
      else
        var template := TemplateOf(t, user, t.versions[id].template);
        if template.None? then None
        else Some(Resolved(t.versions[id].template, template.value.key, id, t.versions[id]))
    case ByKey(user, key) =>
      if (user, key) !in t.byKey || TemplateOf(t, user, t.byKey[(user, key)]).None? then None
      else
        var id := t.byKey[(user, key)];
        var template := t.templates[id];
        var chosen := ChosenFor(t, id, template.active);
        if chosen.None? || chosen.value !in t.versions then None
        else Some(Resolved(id, template.key, chosen.value, t.versions[chosen.value]))
  }

  /** An empty id or key is taken as not given, and a version id goes before a template key. */
  function AskOf(user: UserId, versionId: string, templateKey: string): Option<Ask> {
    if versionId != [] then Some(ByVersion(user, versionId))
    else if templateKey != [] then Some(ByKey(user, templateKey))
    else None
  }

  // ---------------------------------------------------------------- the operations

  function Invalidated(cache: map<string, Resolved>, user: UserId, templateKey: string, versionId: string)
    : map<string, Resolved>
  {
    cache - (if templateKey != [] then {KeyFor(ByKey(user, templateKey))} else {})
          - (if versionId != [] then {KeyFor(ByVersion(user, versionId))} else {})
  }

  /** The cached answer, or the loaded one, which is then cached unless there is none. */
  function StepResolve(w: World, op: Op): (World, Option<Resolved>)
    requires op.Resolve?
  {
    var ask := AskOf(op.user, op.versionId, op.templateKey);
    if ask.None? then (w, None)
    else if KeyFor(ask.value) in w.cache then (w, Some(w.cache[KeyFor(ask.value)]))
    else
      var loaded := Load(w.tables, ask.value);
      (if loaded.Some? then w.(cache := w.cache[KeyFor(ask.value) := loaded.value]) else w, loaded)
  }

  function ActivationError(t: Tables, template: TemplateId, change: ActiveChange): Option<Error> {
    match change
    case Activated(id) =>
      if id !in t.versions || t.versions[id].template != template then Some(VersionNotFound)
      else if !t.versions[id].published then Some(NotPublished)
      else None
    case _ => None
  }

  function WithActive(template: Template, change: ActiveChange): Template {
    match change
    case Untouched => template
    case Cleared => template.(active := None)
    case Activated(id) => template.(active := Some(id))
  }

  /** The error that ends the operation, if one does. New rows get ids never used before. */
  function Refusal(t: Tables, op: Op): Option<Error> {
    match op
    case CreateTemplate(user, key, id) => if (user, key) in t.byKey || id in t.templates then Some(Conflict) else None
    case UpdateTemplate(user, id, active) =>
      if TemplateOf(t, user, id).None? then Some(TemplateNotFound) else ActivationError(t, id, active)
    case CreateVersion(user, template, id, _, _) =>
      if TemplateOf(t, user, template).None? then Some(TemplateNotFound)
      else if id in t.versions then Some(Conflict) else None
    case UpdateVersion(user, template, id, _, _) =>
      if TemplateOf(t, user, template).None? then Some(TemplateNotFound)
      else if id !in t.versions || t.versions[id].template != template then Some(VersionNotFound)
      else None
    case _ => None
  }

  function Rewritten(v: Version, publish: Option<bool>, rewrite: Option<string>): Version {
    v.(published := publish.GetOr(v.published), content := rewrite.GetOr(v.content))
  }

  function AfterCommit(t: Tables, op: Op): Tables
    requires Refusal(t, op).None?
  {
    match op
    case CreateTemplate(user, key, id) =>
      t.(templates := t.templates[id := Template(user, key, None)], byKey := t.byKey[(user, key) := id])
    case UpdateTemplate(user, id, active) =>
      t.(templates := t.templates[id := WithActive(t.templates[id], active)])
    case CreateVersion(user, template, id, published, content) =>
      var row := t.templates[template];
      t.(versions := t.versions[id := Version(template, published, content)], order := t.order + [id],
         templates := t.templates[template := if row.active.None? && published then row.(active := Some(id)) else row])
    case UpdateVersion(user, template, id, publish, rewrite) =>
      t.(versions := t.versions[id := Rewritten(t.versions[id], publish, rewrite)])
    case _ => t
  }

  /** What the operation tells the cache to drop after its commit. */
  function CacheAfter(w: World, op: Op): map<string, Resolved>
    requires Refusal(w.tables, op).None?
  {
    match op
    case CreateTemplate(user, key, _) => Invalidated(w.cache, user, key, [])
    case UpdateTemplate(user, id, _) => Invalidated(w.cache, user, w.tables.templates[id].key, [])
    case CreateVersion(user, template, id, _, _) => Invalidated(w.cache, user, w.tables.templates[template].key, id)
    case UpdateVersion(user, template, id, _, _) => Invalidated(w.cache, user, w.tables.templates[template].key, id)
    case Forget(key) => w.cache - {key}
    case Resolve(_, _, _) => w.cache
  }

  function Step(w: World, op: Op): World {
    if op.Resolve? then StepResolve(w, op).0
    else if Refusal(w.tables, op).Some? then w
    else World(AfterCommit(w.tables, op), CacheAfter(w, op))
  }

  function Run(ops: seq<Op>): World {
    if ops == [] then World(Tables(map[], map[], map[], []), map[]) else Step(Run(ops[..|ops| - 1]), ops[|ops| - 1])
  }

  // ---------------------------------------------------------------- cache keys are faithful

  /** User ids are UUIDs: they have no colon, so it is plain where they end in a cache key. */
  predicate IsUserId(user: UserId) {
    ':' !in user
  }

  function FirstColon(s: string): (n: nat) {
    if s == [] || s[0] == ':' then 0 else 1 + FirstColon(s[1..])
  }

  lemma {:induction false} ColonEndsTheUser(user: UserId, name: string)
    requires IsUserId(user)
    ensures FirstColon(Within(user, name)) == |user|
  {
    if user != [] {
      assert Within(user, name)[1..] == Within(user[1..], name);
      ColonEndsTheUser(user[1..], name);
    }
  }

  lemma SplitIsUnique(u: string, x: string, v: string, y: string)
    requires IsUserId(u) && IsUserId(v) && Within(u, x) == Within(v, y)
    ensures u == v && x == y
  {
    ColonEndsTheUser(u, x);
    ColonEndsTheUser(v, y);
    var s := Within(u, x);
    assert u == s[..|u|] && v == s[..|u|];
    assert x == s[|u| + 1..] && y == s[|u| + 1..];
  }

  lemma PrefixesDiffer()
    ensures |RESOLUTION_PREFIX| > 13 && |VERSION_PREFIX| > 13 && RESOLUTION_PREFIX[13] != VERSION_PREFIX[13]
  {
    assert RESOLUTION_PREFIX[13] == 'r' && VERSION_PREFIX[13] == 'v';
  }

  lemma PrefixesSeparate(p: string, a: string, q: string, b: string, i: nat)
    requires i < |p| && i < |q| && p[i] != q[i]
    ensures p + a != q + b
  {
    assert (p + a)[i] == p[i] && (q + b)[i] == q[i];
  }

  lemma SamePrefix(p: string, a: string, b: string)
    requires p + a == p + b
    ensures a == b
  {
    assert a == (p + a)[|p|..] && b == (p + b)[|p|..];
  }

  lemma KeysAreFaithful(a: Ask, b: Ask)
    requires IsUserId(a.user) && IsUserId(b.user) && KeyFor(a) == KeyFor(b)
    ensures a == b
  {
    hide Within, RESOLUTION_PREFIX, VERSION_PREFIX;
    PrefixesDiffer();
    match (a, b)
    case (ByKey(u, x), ByKey(v, y)) =>
      SamePrefix(RESOLUTION_PREFIX, Within(u, x), Within(v, y));
      SplitIsUnique(u, x, v, y);
    case (ByVersion(u, x), ByVersion(v, y)) =>
      SamePrefix(VERSION_PREFIX, Within(u, x), Within(v, y));
      SplitIsUnique(u, x, v, y);
    case (ByKey(u, x), ByVersion(v, y)) =>
      PrefixesSeparate(RESOLUTION_PREFIX, Within(u, x), VERSION_PREFIX, Within(v, y), 13);
    case (ByVersion(u, x), ByKey(v, y)) =>
      PrefixesSeparate(VERSION_PREFIX, Within(u, x), RESOLUTION_PREFIX, Within(v, y), 13);
  }

  // ---------------------------------------------------------------- the invariant

  /** Rows and indices agree, and an active version is one of its template's. */
  ghost predicate TablesInv(t: Tables) {
    && (forall p :: p in t.byKey ==>
          t.byKey[p] in t.templates && t.templates[t.byKey[p]].user == p.0 && t.templates[t.byKey[p]].key == p.1)
    && (forall id :: id in t.templates ==>
          && (t.templates[id].user, t.templates[id].key) in t.byKey
          && t.byKey[(t.templates[id].user, t.templates[id].key)] == id)
    && (forall v :: v in t.order <==> v in t.versions)
    && (forall v :: v in t.versions ==> t.versions[v].template in t.templates)
  }

  predicate IsEmpty(ask: Ask) {
    if ask.ByKey? then ask.key == [] else ask.id == []
  }

  /** What is cached for the question is what loading would answer now. */
  predicate Fresh(w: World, ask: Ask) {
    KeyFor(ask) in w.cache ==> !IsEmpty(ask) && Load(w.tables, ask) == Some(w.cache[KeyFor(ask)])
  }

  ghost predicate Coherent(w: World) {
    forall ask: Ask :: IsUserId(ask.user) ==> Fresh(w, ask)
  }

  lemma CommitKeepsTables(t: Tables, op: Op)
    requires TablesInv(t) && Refusal(t, op).None?
    ensures TablesInv(AfterCommit(t, op))
  {
  }

  /** The question an operation may change the answer to by a template key; another by version id. */
  predicate Concerns(t: Tables, op: Op, ask: Ask)
    requires Refusal(t, op).None?
  {
    match op
    case CreateTemplate(user, key, _) => ask == ByKey(user, key)
    case UpdateTemplate(user, id, _) => ask == ByKey(user, t.templates[id].key)
    case CreateVersion(user, template, id, _, _) =>
      ask == ByKey(user, t.templates[template].key) || ask == ByVersion(user, id)
    case UpdateVersion(user, template, id, _, _) =>
      ask == ByKey(user, t.templates[template].key) || ask == ByVersion(user, id)
    case _ => false
  }

  lemma {:induction false} SameVersionsSameList(a: map<VersionId, Version>, b: map<VersionId, Version>,
                                                order: seq<VersionId>, template: TemplateId)
    requires forall v :: v in order ==> (v in a && a[v].template == template <==> v in b && b[v].template == template)
    ensures NewestFirst(a, order, template) == NewestFirst(b, order, template)
  {
    if order != [] {
      SameVersionsSameList(a, b, order[..|order| - 1], template);
    }
  }

  lemma {:induction false} SameRowsSameChoice(a: map<VersionId, Version>, b: map<VersionId, Version>, page: seq<VersionId>)
    requires forall v :: v in page ==> v in a && v in b && a[v] == b[v]
    ensures FirstPublished(a, page) == FirstPublished(b, page)
  {
    if page != [] {
      SameRowsSameChoice(a, b, page[1..]);
    }
  }

  /** What is chosen depends on the template's own versions only. */
  lemma ChoiceDependsOnOwnVersions(t: Tables, u: Tables, id: TemplateId, active: Option<VersionId>)
    requires var list := NewestFirst(t.versions, t.order, id);
             && list == NewestFirst(u.versions, u.order, id)
             && forall v :: v in list ==> v in t.versions && v in u.versions && t.versions[v] == u.versions[v]
    ensures ChosenFor(t, id, active) == ChosenFor(u, id, active)
    ensures var chosen := ChosenFor(t, id, active);
            chosen.Some? ==> chosen.value in t.versions && chosen.value in u.versions
                             && t.versions[chosen.value] == u.versions[chosen.value]
  {
    var page := FirstPage(NewestFirst(t.versions, t.order, id));
    assert forall v :: v in page ==> v in NewestFirst(t.versions, t.order, id);
    SameRowsSameChoice(t.versions, u.versions, page);
  }

  lemma OtherTemplatesKeepTheirVersions(t: Tables, op: Op, id: TemplateId)
    requires TablesInv(t) && Refusal(t, op).None? && id in t.templates
    requires (op.CreateVersion? || op.UpdateVersion?) ==> op.template != id
    ensures var u := AfterCommit(t, op);
            var list := NewestFirst(t.versions, t.order, id);
            && list == NewestFirst(u.versions, u.order, id)
            && forall v :: v in list ==> v in t.versions && v in u.versions && t.versions[v] == u.versions[v]
  {
    var u := AfterCommit(t, op);
    assert forall v :: v in t.order ==> v in t.versions;
    assert op.CreateVersion? ==> op.id !in t.order;
    hide TablesInv, NewestFirst;
    if op.CreateVersion? {
      SameVersionsSameList(t.versions, u.versions, t.order, id);
      OthersVersionIsNotListed(u.versions, t.order, op.id, id);
    } else if op.UpdateVersion? {
      SameVersionsSameList(t.versions, u.versions, t.order, id);
    }
  }

  lemma OthersVersionIsNotListed(versions: map<VersionId, Version>, order: seq<VersionId>, v: VersionId, id: TemplateId)
    requires v in versions && versions[v].template != id
    ensures NewestFirst(versions, order + [v], id) == NewestFirst(versions, order, id)
  {
    assert (order + [v])[..|order|] == order;
  }

  lemma OtherVersionAnswersStay(t: Tables, op: Op, user: UserId, id: VersionId)
    requires TablesInv(t) && Refusal(t, op).None? && !Concerns(t, op, ByVersion(user, id))
    ensures Load(AfterCommit(t, op), ByVersion(user, id)) == Load(t, ByVersion(user, id))
  {
  }

  lemma OtherKeyAnswersStay(t: Tables, op: Op, user: UserId, key: string)
    requires TablesInv(t) && Refusal(t, op).None? && !Concerns(t, op, ByKey(user, key))
    ensures Load(AfterCommit(t, op), ByKey(user, key)) == Load(t, ByKey(user, key))
  {
    var u := AfterCommit(t, op);
    if (user, key) in t.byKey {
      var id := t.byKey[(user, key)];
      assert (op.CreateVersion? || op.UpdateVersion?) ==> op.template != id;
      assert id in u.templates && u.templates[id] == t.templates[id] && (user, key) in u.byKey && u.byKey[(user, key)] == id;
      OtherTemplatesKeepTheirVersions(t, op, id);
      hide ChosenFor, TablesInv, AfterCommit;
      ChoiceDependsOnOwnVersions(t, u, id, t.templates[id].active);
    }
  }

  /** An operation leaves every answer it does not concern as it was. */
  lemma OtherAnswersStay(t: Tables, op: Op, ask: Ask)
    requires TablesInv(t) && Refusal(t, op).None? && !Concerns(t, op, ask)
    ensures Load(AfterCommit(t, op), ask) == Load(t, ask)
  {
    hide *;
    match ask
    case ByVersion(user, id) => OtherVersionAnswersStay(t, op, user, id);
    case ByKey(user, key) => OtherKeyAnswersStay(t, op, user, key);
  }

  lemma DropsWhatItConcerns(w: World, op: Op, ask: Ask)
    requires Refusal(w.tables, op).None? && Concerns(w.tables, op, ask) && !IsEmpty(ask)
    ensures KeyFor(ask) !in CacheAfter(w, op)
  {
    hide KeyFor;
  }

  lemma ChangeKeepsFresh(w: World, op: Op, ask: Ask)
    requires TablesInv(w.tables) && !op.Resolve? && Fresh(w, ask)
    ensures Fresh(Step(w, op), ask)
  {
    hide KeyFor, Load;
    if Refusal(w.tables, op).None? && KeyFor(ask) in CacheAfter(w, op) {
      assert CacheAfter(w, op).Keys <= w.cache.Keys && KeyFor(ask) in w.cache;
      if Concerns(w.tables, op, ask) {
        DropsWhatItConcerns(w, op, ask);
        assert false;
      }
      OtherAnswersStay(w.tables, op, ask);
    }
  }

  lemma ResolveKeepsFresh(w: World, op: Op, ask: Ask)
    requires op.Resolve? && IsUserId(op.user) && IsUserId(ask.user) && Fresh(w, ask)
    ensures Fresh(Step(w, op), ask)
  {
    hide KeyFor, Load;
    var asked := AskOf(op.user, op.versionId, op.templateKey);
    if asked.Some? && KeyFor(asked.value) == KeyFor(ask) {
      KeysAreFaithful(asked.value, ask);
    }
  }

  predicate PlainUsers(ops: seq<Op>) {
    forall i :: 0 <= i < |ops| && ops[i].Resolve? ==> IsUserId(ops[i].user)
  }

  lemma {:induction false} RunIsCoherent(ops: seq<Op>)
    requires PlainUsers(ops)
    ensures TablesInv(Run(ops).tables) && Coherent(Run(ops))
  {
    if ops != [] {
      hide TablesInv, Fresh;
      var w, op := Run(ops[..|ops| - 1]), ops[|ops| - 1];
      RunIsCoherent(ops[..|ops| - 1]);
      forall ask: Ask | IsUserId(ask.user) ensures Fresh(Step(w, op), ask) {
        if op.Resolve? {
          ResolveKeepsFresh(w, op, ask);
        } else {
          ChangeKeepsFresh(w, op, ask);
        }
      }
      if !op.Resolve? && Refusal(w.tables, op).None? {
        CommitKeepsTables(w.tables, op);
      }
    } else {
      assert TablesInv(Run([]).tables) && forall ask: Ask :: Fresh(Run([]), ask);
    }
  }

  // ---------------------------------------------------------------- main results

  /** Coherence: after any sequence of creations, updates, resolutions and losses, resolving answers
      exactly what loading from the current tables would. */
  lemma ResolveAnswersWhatLoadingWould(ops: seq<Op>, op: Op)
    requires PlainUsers(ops) && op.Resolve? && IsUserId(op.user)
    ensures var ask := AskOf(op.user, op.versionId, op.templateKey);
            StepResolve(Run(ops), op).1 == if ask.None? then None else Load(Run(ops).tables, ask.value)
  {
    RunIsCoherent(ops);
    var ask := AskOf(op.user, op.versionId, op.templateKey);
    if ask.Some? {
      assert Fresh(Run(ops), ask.value);
    }
  }

  /** What a template key is answered with: the chosen id. */
  function ChosenBy(t: Tables, template: TemplateId): Option<VersionId>
    requires template in t.templates
  {
    ChosenFor(t, template, t.templates[template].active)
  }

  /** The operation changes the answer to the question: it rewrites the version asked for, or the one
      chosen for the key, or makes the choice fall on another one. */
  predicate ChangesAnswer(t: Tables, op: Op, ask: Ask)
    requires Refusal(t, op).None?
  {
    var u := AfterCommit(t, op);
    match (op, ask)
    case (UpdateVersion(user, _, id, publish, rewrite), ByVersion(asker, asked)) =>
      asker == user && asked == id && Rewritten(t.versions[id], publish, rewrite) != t.versions[id]
    case (UpdateVersion(user, template, id, publish, rewrite), ByKey(asker, key)) =>
      asker == user && key == t.templates[template].key
      && template in u.templates
      && (ChosenBy(u, template) != ChosenBy(t, template)
          || (ChosenBy(t, template) == Some(id) && Rewritten(t.versions[id], publish, rewrite) != t.versions[id]))
    case (UpdateTemplate(user, template, _), ByKey(asker, key)) =>
      asker == user && key == t.templates[template].key
      && template in u.templates && ChosenBy(u, template) != ChosenBy(t, template)
    case (CreateVersion(user, template, _, _, _), ByKey(asker, key)) =>
      asker == user && key == t.templates[template].key
      && template in u.templates && ChosenBy(u, template) != ChosenBy(t, template)
    case _ => false
  }

  lemma KeyAnswerIsItsChoice(t: Tables, id: TemplateId)
    requires TablesInv(t) && id in t.templates
    ensures var row := t.templates[id];
            Load(t, ByKey(row.user, row.key))
            == match ChosenBy(t, id)
               case None => None
               case Some(v) => if v !in t.versions then None else Some(Resolved(id, row.key, v, t.versions[v]))
    ensures ChosenBy(t, id).Some? ==> ChosenBy(t, id).value in t.versions
  {
    ChosenIsListed(t, id);
  }

  /** The version rows an operation leaves alone. */
  lemma CommitOnRows(t: Tables, op: Op, v: VersionId)
    requires Refusal(t, op).None? && v in t.versions
    ensures var u := AfterCommit(t, op);
            v in u.versions && u.versions[v] == if op.UpdateVersion? && op.id == v
                                                then Rewritten(t.versions[v], op.publish, op.rewrite) else t.versions[v]
  {
  }

  lemma KeyAnswerChangesExactlyWhen(t: Tables, op: Op, template: TemplateId)
    requires TablesInv(t) && Refusal(t, op).None? && template in t.templates
    requires (op.UpdateTemplate? && op.id == template)
             || ((op.CreateVersion? || op.UpdateVersion?) && op.template == template)
    requires Load(t, ByKey(t.templates[template].user, t.templates[template].key)).Some?
    ensures var ask := ByKey(t.templates[template].user, t.templates[template].key);
            Load(AfterCommit(t, op), ask) != Load(t, ask) <==> ChangesAnswer(t, op, ask)
  {
    var u := AfterCommit(t, op);
    CommitKeepsTables(t, op);
    assert template in u.templates && u.templates[template].user == t.templates[template].user
           && u.templates[template].key == t.templates[template].key;
    KeyAnswerIsItsChoice(t, template);
    KeyAnswerIsItsChoice(u, template);
    CommitOnRows(t, op, ChosenBy(t, template).value);
    hide ChosenBy, TablesInv, AfterCommit, Load;
  }

  /** An answer that there is changes exactly then. */
  lemma AnswerChangesExactlyWhen(t: Tables, op: Op, ask: Ask)
    requires TablesInv(t) && Refusal(t, op).None? && Load(t, ask).Some?
    ensures Load(AfterCommit(t, op), ask) != Load(t, ask) <==> ChangesAnswer(t, op, ask)
  {
    if !Concerns(t, op, ask) {
      OtherAnswersStay(t, op, ask);
      NoConcernNoChange(t, op, ask);
    } else if ask.ByVersion? {
      VersionAnswerChangesExactlyWhen(t, op, ask);
    } else {
      assert !op.CreateTemplate?;
      KeyAnswerChangesExactlyWhen(t, op, if op.UpdateTemplate? then op.id else op.template);
    }
  }

  lemma NoConcernNoChange(t: Tables, op: Op, ask: Ask)
    requires Refusal(t, op).None? && !Concerns(t, op, ask)
    ensures !ChangesAnswer(t, op, ask)
  {
  }

  lemma VersionAnswerChangesExactlyWhen(t: Tables, op: Op, ask: Ask)
    requires TablesInv(t) && Refusal(t, op).None? && Concerns(t, op, ask) && ask.ByVersion? && Load(t, ask).Some?
    ensures Load(AfterCommit(t, op), ask) != Load(t, ask) <==> ChangesAnswer(t, op, ask)
  {
  }

  /** Coherence needs the deletions to work: when one fails, a cached question goes on being answered
      as before the operation, wrongly if and only if the operation rewrote the version it is answered
      with or made the choice fall on another one. */
  lemma FailedDeletionServesTheOldAnswer(ops: seq<Op>, change: Op, ask: Ask)
    requires PlainUsers(ops) && IsUserId(ask.user) && KeyFor(ask) in Run(ops).cache
    requires !change.Resolve? && Refusal(Run(ops).tables, change).None?
    ensures var stale := World(AfterCommit(Run(ops).tables, change), Run(ops).cache);
            var op := if ask.ByKey? then Resolve(ask.user, [], ask.key) else Resolve(ask.user, ask.id, []);
            && StepResolve(stale, op).1 == Load(Run(ops).tables, ask)
            && (StepResolve(stale, op).1 != Load(stale.tables, ask) <==> ChangesAnswer(Run(ops).tables, change, ask))
  {
    RunIsCoherent(ops);
    assert Fresh(Run(ops), ask);
    hide ChangesAnswer, AfterCommit, Load, TablesInv;
    AnswerChangesExactlyWhen(Run(ops).tables, change, ask);
  }

  // ---------------------------------------------------------------- what each operation does

  /** A resolution changes at most its own cache entry, which then holds its answer: asked again, the
      same answer comes from the cache. */
  lemma ResolvingFillsTheCache(w: World, op: Op)
    requires op.Resolve?
    ensures var (w', answer) := StepResolve(w, op);
            var ask := if op.versionId != "" then ByVersion(op.user, op.versionId) else ByKey(op.user, op.templateKey);
            && Step(w, op) == w' && w'.tables == w.tables
            && (answer.Some? ==> w'.cache == w.cache[KeyFor(ask) := answer.value] && StepResolve(w', op) == (w', answer))
            && (answer.None? ==> w' == w)
  {
    hide KeyFor, Load;
    assert op.versionId != "" <==> op.versionId != [];
  }

  /** Creating a template: refused exactly when the user has one with the key or the id is taken; the new
      one has no active version. */
  lemma TemplateIsCreated(w: World, user: UserId, key: string, id: TemplateId)
    ensures var (op, t) := (CreateTemplate(user, key, id), w.tables);
            var u := Step(w, op).tables;
            && (Refusal(t, op) == if (user, key) in t.byKey || id in t.templates then Some(Conflict) else None)
            && (Refusal(t, op).Some? ==> Step(w, op) == w)
            && (Refusal(t, op).None? ==>
                  && u.templates == t.templates[id := Template(user, key, None)] && u.byKey == t.byKey[(user, key) := id]
                  && u.versions == t.versions && u.order == t.order)
  {
  }

  /** Updating a template sets what is active, and nothing else, to none or to a published version of
      the template itself; anything else is refused with its reason. */
  lemma TemplateIsUpdated(w: World, user: UserId, id: TemplateId, active: ActiveChange)
    ensures var (op, t) := (UpdateTemplate(user, id, active), w.tables);
            var (u, refusal) := (Step(w, op).tables, Refusal(t, op));
            && (refusal == Some(TemplateNotFound) <==> !(id in t.templates && t.templates[id].user == user))
            && (refusal == Some(VersionNotFound) <==>
                  id in t.templates && t.templates[id].user == user && active.Activated? && !IsVersionOf(t, active.id, id))
            && (refusal == Some(NotPublished) <==>
                  id in t.templates && t.templates[id].user == user && active.Activated? && IsVersionOf(t, active.id, id)
                  && !t.versions[active.id].published)
            && (refusal.Some? ==> Step(w, op) == w && refusal != Some(Conflict))
            && (refusal.None? ==>
                  && id in u.templates && u == t.(templates := t.templates[id := u.templates[id]])
                  && u.templates[id].user == user && u.templates[id].key == t.templates[id].key
                  && u.templates[id].active == (match active
                                                case Untouched => t.templates[id].active
                                                case Cleared => None
                                                case Activated(v) => Some(v)))
  {
  }

  /** Creating a version: refused exactly when the template is not the user's or the id is taken; the new
      one is the newest, and becomes active exactly when it is published and none was. */
  lemma VersionIsCreated(w: World, user: UserId, template: TemplateId, id: VersionId, published: bool, content: string)
    ensures var (op, t) := (CreateVersion(user, template, id, published, content), w.tables);
            var (u, refusal) := (Step(w, op).tables, Refusal(t, op));
            var own := template in t.templates && t.templates[template].user == user;
            && (refusal == if !own then Some(TemplateNotFound) else if id in t.versions then Some(Conflict) else None)
            && (refusal.Some? ==> Step(w, op) == w)
            && (refusal.None? ==>
                  && u.versions == t.versions[id := Version(template, published, content)] && u.order == t.order + [id]
                  && u.byKey == t.byKey
                  && u.templates == t.templates[template := t.templates[template].(
                                      active := if published && t.templates[template].active.None? then Some(id)
                                                else t.templates[template].active)])
  {
  }

  /** Updating a version: refused exactly when the template is not the user's or the version not one of
      it; otherwise what was given is set on that version alone. */
  lemma VersionIsUpdated(w: World, user: UserId, template: TemplateId, id: VersionId, publish: Option<bool>,
                         rewrite: Option<string>)
    ensures var (op, t) := (UpdateVersion(user, template, id, publish, rewrite), w.tables);
            var (u, refusal) := (Step(w, op).tables, Refusal(t, op));
            var own := template in t.templates && t.templates[template].user == user;
            && (refusal == if !own then Some(TemplateNotFound)
                           else if !IsVersionOf(t, id, template) then Some(VersionNotFound) else None)
            && (refusal.Some? ==> Step(w, op) == w)
            && (refusal.None? ==>
                  && id in u.versions && u == t.(versions := t.versions[id := u.versions[id]])
                  && u.versions[id].template == template
                  && u.versions[id].published == (if publish.Some? then publish.value else t.versions[id].published)
                  && u.versions[id].content == (if rewrite.Some? then rewrite.value else t.versions[id].content))
  {
  }

  lemma OtherKeysDiffer(ask: Ask, mine: Ask)
    requires IsUserId(ask.user) && IsUserId(mine.user) && ask != mine
    ensures KeyFor(ask) != KeyFor(mine)
  {
    if KeyFor(ask) == KeyFor(mine) {
      KeysAreFaithful(ask, mine);
    }
  }

  /** An operation drops no cached answer that it does not concern. */
  lemma DropsNothingElse(w: World, op: Op, ask: Ask)
    requires !op.Resolve? && !op.Forget? && Refusal(w.tables, op).None?
    requires IsUserId(ask.user) && IsUserId(op.user) && !Concerns(w.tables, op, ask) && KeyFor(ask) in w.cache
    ensures KeyFor(ask) in Step(w, op).cache && Step(w, op).cache[KeyFor(ask)] == w.cache[KeyFor(ask)]
  {
    hide KeyFor;
    var key := match op
               case CreateTemplate(_, key, _) => key
               case UpdateTemplate(_, id, _) => w.tables.templates[id].key
               case CreateVersion(_, template, _, _, _) => w.tables.templates[template].key
               case UpdateVersion(_, template, _, _, _) => w.tables.templates[template].key
               case _ => [];
    OtherKeysDiffer(ask, ByKey(op.user, key));
    if op.CreateVersion? || op.UpdateVersion? {
      OtherKeysDiffer(ask, ByVersion(op.user, op.id));
    }
  }

  // ---------------------------------------------------------------- which version is answered

  /** Created later. */
  predicate Newer(order: seq<VersionId>, a: VersionId, b: VersionId) {
    exists i, j :: 0 <= i < j < |order| && order[i] == b && order[j] == a
  }

  predicate Ordered(order: seq<VersionId>) {
    forall i, j :: 0 <= i < j < |order| ==> order[i] != order[j]
  }

  predicate IsVersionOf(t: Tables, v: VersionId, template: TemplateId) {
    v in t.versions && t.versions[v].template == template
  }

  ghost function NewerVersions(t: Tables, template: TemplateId, v: VersionId): set<VersionId> {
    set x | x in t.versions && t.versions[x].template == template && Newer(t.order, x, v)
  }

  /** One of the newest 200 versions of the template. */
  ghost predicate Recent(t: Tables, template: TemplateId, v: VersionId) {
    IsVersionOf(t, v, template) && |NewerVersions(t, template, v)| < 200
  }

  lemma {:induction false} RunKeepsOrder(ops: seq<Op>)
    requires PlainUsers(ops)
    ensures Ordered(Run(ops).tables.order)
  {
    if ops != [] {
      RunKeepsOrder(ops[..|ops| - 1]);
      RunIsCoherent(ops[..|ops| - 1]);
    }
  }

  lemma NewerExtends(order: seq<VersionId>, last: VersionId, a: VersionId, b: VersionId)
    requires Newer(order, a, b)
    ensures Newer(order + [last], a, b)
  {
    var i, j :| 0 <= i < j < |order| && order[i] == b && order[j] == a;
    assert (order + [last])[i] == b && (order + [last])[j] == a;
  }

  lemma LastIsNewer(order: seq<VersionId>, last: VersionId, b: VersionId)
    requires b in order
    ensures Newer(order + [last], last, b)
  {
    var i :| 0 <= i < |order| && order[i] == b;
    assert (order + [last])[i] == b && (order + [last])[|order|] == last;
  }

  predicate Descends(order: seq<VersionId>, list: seq<VersionId>) {
    forall p, q :: 0 <= p < q < |list| ==> Newer(order, list[p], list[q])
  }

  lemma DescendsExtends(order: seq<VersionId>, last: VersionId, list: seq<VersionId>)
    requires Descends(order, list)
    ensures Descends(order + [last], list)
    ensures (forall v :: v in list ==> v in order) ==> Descends(order + [last], [last] + list)
  {
    forall p, q | 0 <= p < q < |list| ensures Newer(order + [last], list[p], list[q]) {
      NewerExtends(order, last, list[p], list[q]);
    }
    if forall v :: v in list ==> v in order {
      forall q | 0 <= q < |list| ensures Newer(order + [last], last, list[q]) {
        LastIsNewer(order, last, list[q]);
      }
    }
  }

  /** The list does what its name says. */
  lemma {:induction false} ListIsNewestFirst(versions: map<VersionId, Version>, order: seq<VersionId>, template: TemplateId)
    ensures Descends(order, NewestFirst(versions, order, template))
  {
    if order != [] {
      var init, last := order[..|order| - 1], order[|order| - 1];
      ListIsNewestFirst(versions, init, template);
      DescendsExtends(init, last, NewestFirst(versions, init, template));
      assert order == init + [last];
    }
  }

  lemma NewerIsStrict(order: seq<VersionId>, a: VersionId, b: VersionId)
    requires Ordered(order) && Newer(order, a, b)
    ensures a != b && !Newer(order, b, a)
  {
    var i, j :| 0 <= i < j < |order| && order[i] == b && order[j] == a;
    forall k, l | 0 <= k < l < |order| && order[k] == a ensures order[l] != b {
      assert k == j;
    }
  }

  lemma {:induction false} DistinctCount(s: seq<VersionId>)
    requires forall i, j :: 0 <= i < j < |s| ==> s[i] != s[j]
    ensures |set x | x in s| == |s|
  {
    if s != [] {
      var init, last := s[..|s| - 1], s[|s| - 1];
      DistinctCount(init);
      assert s == init + [last];
      assert (set x | x in s) == (set x | x in init) + {last};
    }
  }

  /** The versions newer than the one at position `q` of the list are the `q` before it. */
  lemma NewerAreBefore(t: Tables, template: TemplateId, q: nat)
    requires TablesInv(t) && Ordered(t.order) && q < |NewestFirst(t.versions, t.order, template)|
    ensures var list := NewestFirst(t.versions, t.order, template);
            NewerVersions(t, template, list[q]) == (set x | x in list[..q]) && |NewerVersions(t, template, list[q])| == q
  {
    var list := NewestFirst(t.versions, t.order, template);
    hide Newer, NewestFirst;
    ListIsNewestFirst(t.versions, t.order, template);
    forall p, r | 0 <= p < r < |list| ensures list[p] != list[r] && !Newer(t.order, list[r], list[p]) {
      NewerIsStrict(t.order, list[p], list[r]);
    }
    forall x ensures x in NewerVersions(t, template, list[q]) <==> x in list[..q] {
      if x in NewerVersions(t, template, list[q]) {
        assert x in list;
        var p :| 0 <= p < |list| && list[p] == x;
        NewerIsStrict(t.order, x, list[q]);
        assert p < q && list[..q][p] == x;
      }
    }
    DistinctCount(list[..q]);
  }

  /** So the page holds the recent versions, newest first. */
  lemma PageIsRecent(t: Tables, template: TemplateId)
    requires TablesInv(t) && Ordered(t.order)
    ensures var page := FirstPage(NewestFirst(t.versions, t.order, template));
            && (forall v :: v in page <==> Recent(t, template, v))
            && (forall i: nat, v :: i < |page| && IsVersionOf(t, v, template) ==>
                  (Newer(t.order, v, page[i]) <==> v in page[..i]))
            && (page == [] <==> forall v :: !IsVersionOf(t, v, template))
  {
    var list := NewestFirst(t.versions, t.order, template);
    var page := FirstPage(list);
    hide Newer;
    forall v ensures v in page <==> Recent(t, template, v) {
      if IsVersionOf(t, v, template) {
        assert v in list;
        var q :| 0 <= q < |list| && list[q] == v;
        NewerAreBefore(t, template, q);
        assert q < |page| ==> page[q] == v;
        if v in page {
          var p :| 0 <= p < |page| && page[p] == v;
          NewerAreBefore(t, template, p);
        }
      }
    }
    forall i: nat, v | i < |page| && IsVersionOf(t, v, template)
      ensures Newer(t.order, v, page[i]) <==> v in page[..i]
    {
      NewerAreBefore(t, template, i);
      assert page[..i] == list[..i] && page[i] == list[i];
      assert v in NewerVersions(t, template, list[i]) <==> Newer(t.order, v, list[i]);
    }
    if list != [] {
      assert IsVersionOf(t, list[0], template);
    }
    assert forall v :: IsVersionOf(t, v, template) ==> v in list;
  }

  lemma {:induction false} FirstPublishedIsFirst(versions: map<VersionId, Version>, ids: seq<VersionId>)
    requires FirstPublished(versions, ids).Some?
    ensures exists i: nat :: i < |ids| && ids[i] == FirstPublished(versions, ids).value
                             && forall j :: 0 <= j < i ==> ids[j] !in versions || !versions[ids[j]].published
  {
    if ids[0] in versions && versions[ids[0]].published {
      assert ids[0] == FirstPublished(versions, ids).value;
    } else {
      FirstPublishedIsFirst(versions, ids[1..]);
      var i: nat :| i < |ids[1..]| && ids[1..][i] == FirstPublished(versions, ids[1..]).value
                    && forall j :: 0 <= j < i ==> ids[1..][j] !in versions || !versions[ids[1..][j]].published;
      assert ids[i + 1] == FirstPublished(versions, ids).value;
      assert forall j :: 1 <= j < i + 1 ==> ids[j] == ids[1..][j - 1];
    }
  }

  /** The right version for a template's key: the active one while it is recent; else the newest
      published one, if one is recent; else the newest. */
  ghost predicate IsRightVersion(t: Tables, template: TemplateId, v: VersionId)
    requires template in t.templates
  {
    var active := t.templates[template].active;
    && Recent(t, template, v)
    && if active.Some? && Recent(t, template, active.value) then v == active.value
       else if exists x :: Recent(t, template, x) && t.versions[x].published
       then t.versions[v].published
            && forall x :: IsVersionOf(t, x, template) && t.versions[x].published ==> !Newer(t.order, x, v)
       else forall x :: IsVersionOf(t, x, template) ==> !Newer(t.order, x, v)
  }

  /** No version of the template is newer than the first on the page, nor a published one newer than
      the first published one. */
  lemma FirstIsNewest(t: Tables, template: TemplateId)
    requires TablesInv(t) && Ordered(t.order)
    ensures var page := FirstPage(NewestFirst(t.versions, t.order, template));
            var published := FirstPublished(t.versions, page);
            && (page != [] ==> forall x :: IsVersionOf(t, x, template) ==> !Newer(t.order, x, page[0]))
            && (published.Some? ==>
                  forall x :: IsVersionOf(t, x, template) && t.versions[x].published ==> !Newer(t.order, x, published.value))
  {
    PageIsRecent(t, template);
    var page := FirstPage(NewestFirst(t.versions, t.order, template));
    var published := FirstPublished(t.versions, page);
    hide Newer, NewestFirst, FirstPage, Recent, FirstPublished, TablesInv, Ordered;
    if page != [] {
      assert page[..0] == [];
      assert forall x :: IsVersionOf(t, x, template) ==> !Newer(t.order, x, page[0]);
    }
    if published.Some? {
      FirstPublishedIsFirst(t.versions, page);
      var i: nat :| i < |page| && page[i] == published.value
                    && forall j :: 0 <= j < i ==> page[j] !in t.versions || !t.versions[page[j]].published;
      forall x | IsVersionOf(t, x, template) && t.versions[x].published ensures !Newer(t.order, x, page[i]) {
        assert x !in page[..i];
      }
    }
  }

  lemma ChoiceIsRight(t: Tables, template: TemplateId)
    requires TablesInv(t) && Ordered(t.order) && template in t.templates
    ensures var chosen := ChosenBy(t, template);
            && (chosen.Some? <==> exists v :: IsVersionOf(t, v, template))
            && (chosen.Some? ==> IsRightVersion(t, template, chosen.value))
  {
    PageIsRecent(t, template);
    FirstIsNewest(t, template);
    hide Newer, NewestFirst, FirstPage, FirstPublished, TablesInv, Ordered, NewerVersions;
  }

  /** What a key is answered with, after any sequence of operations: nothing exactly when no template of
      the user with that key has a version, and otherwise the right version of one that has, as it is
      now. */
  lemma KeyIsAnsweredRightly(ops: seq<Op>, user: UserId, key: string)
    requires PlainUsers(ops) && IsUserId(user) && key != []
    ensures var t := Run(ops).tables;
            var answer := StepResolve(Run(ops), Resolve(user, [], key)).1;
            && (answer.Some? <==> exists id, v :: && id in t.templates && t.templates[id].user == user
                                                  && t.templates[id].key == key && IsVersionOf(t, v, id))
            && (answer.Some? ==>
                  var r := answer.value;
                  && r.template in t.templates && t.templates[r.template].user == user
                  && t.templates[r.template].key == key == r.templateKey
                  && IsRightVersion(t, r.template, r.id) && r.version == t.versions[r.id])
  {
    RunIsCoherent(ops);
    RunKeepsOrder(ops);
    ResolveAnswersWhatLoadingWould(ops, Resolve(user, [], key));
    var t := Run(ops).tables;
    hide Run, StepResolve, IsRightVersion;
    if (user, key) in t.byKey {
      ChoiceIsRight(t, t.byKey[(user, key)]);
    }
  }

  /** What a version id is answered with: that version, as it is now, exactly when it is one of a
      template of the user. */
  lemma VersionIsAnsweredRightly(ops: seq<Op>, user: UserId, id: VersionId, key: string)
    requires PlainUsers(ops) && IsUserId(user) && id != []
    ensures var t := Run(ops).tables;
            var answer := StepResolve(Run(ops), Resolve(user, id, key)).1;
            && (answer.Some? <==> id in t.versions && t.versions[id].template in t.templates
                                  && t.templates[t.versions[id].template].user == user)
            && (answer.Some? ==>
                  var version := t.versions[id];
                  answer.value == Resolved(version.template, t.templates[version.template].key, id, version))
  {
    RunIsCoherent(ops);
    ResolveAnswersWhatLoadingWould(ops, Resolve(user, id, key));
  }

  /** A user is only ever given versions of the user's own templates. */
  lemma AnswersAreTheUsersOwn(ops: seq<Op>, op: Op)
    requires PlainUsers(ops) && op.Resolve? && IsUserId(op.user)
    ensures var answer := StepResolve(Run(ops), op).1;
            var t := Run(ops).tables;
            answer.Some? ==>
              && answer.value.template in t.templates && t.templates[answer.value.template].user == op.user
              && answer.value.id in t.versions && t.versions[answer.value.id] == answer.value.version
              && answer.value.version.template == answer.value.template
  {
    RunIsCoherent(ops);
    ResolveAnswersWhatLoadingWould(ops, op);
    var ask := AskOf(op.user, op.versionId, op.templateKey);
    if ask.Some? && ask.value.ByKey? && (op.user, ask.value.key) in Run(ops).tables.byKey {
      ChosenIsListed(Run(ops).tables, Run(ops).tables.byKey[(op.user, ask.value.key)]);
    }
  }

  lemma ChosenIsListed(t: Tables, id: TemplateId)
    requires id in t.templates
    ensures var chosen := ChosenFor(t, id, t.templates[id].active);
            chosen.Some? ==> chosen.value in FirstPage(NewestFirst(t.versions, t.order, id))
                             && chosen.value in t.versions && t.versions[chosen.value].template == id
  {
    var page := FirstPage(NewestFirst(t.versions, t.order, id));
    assert forall v :: v in page ==> v in NewestFirst(t.versions, t.order, id);
  }

  /** The active version is what a template key resolves to exactly while it is among the newest 200
      of its template. */
  lemma ActiveVersionCounts(t: Tables, id: TemplateId)
    requires id in t.templates && t.templates[id].active.Some?
    ensures ChosenFor(t, id, t.templates[id].active) == t.templates[id].active
            <==> t.templates[id].active.value in FirstPage(NewestFirst(t.versions, t.order, id))
  {
    ChosenIsListed(t, id);
  }

  /** Ids that tell themselves apart by their length. */
  function Nth(n: nat): VersionId {
    if n == 0 then ['v'] else Nth(n - 1) + ['v']
  }

  lemma {:induction false} NthHasItsLength(n: nat)
    ensures |Nth(n)| == n + 1
  {
    if n > 0 {
      NthHasItsLength(n - 1);
    }
  }

  /** A template whose first version is published, and so active, and then `n` versions more. */
  function Release(user: UserId, key: string, id: TemplateId, n: nat): seq<Op> {
    if n == 0 then [CreateTemplate(user, key, id), CreateVersion(user, id, Nth(0), true, [])]
    else Release(user, key, id, n - 1) + [CreateVersion(user, id, Nth(n), false, [])]
  }

  function NthDownFrom(n: nat): seq<VersionId> {
    if n == 0 then [Nth(0)] else [Nth(n)] + NthDownFrom(n - 1)
  }

  lemma {:induction false} NthDown(n: nat)
    ensures |NthDownFrom(n)| == n + 1
    ensures forall i :: 0 <= i <= n ==> NthDownFrom(n)[i] == Nth(n - i)
  {
    if n > 0 {
      NthDown(n - 1);
      assert forall i :: 1 <= i <= n ==> NthDownFrom(n)[i] == NthDownFrom(n - 1)[i - 1];
    }
  }

  ghost predicate Released(t: Tables, user: UserId, key: string, id: TemplateId, n: nat) {
    && id in t.templates && t.templates[id] == Template(user, key, Some(Nth(0)))
    && NewestFirst(t.versions, t.order, id) == NthDownFrom(n)
    && (forall v :: v in t.versions ==> |v| <= n + 1) && (forall v :: v in t.order ==> v in t.versions)
  }

  lemma ReleaseFirst(user: UserId, key: string, id: TemplateId)
    ensures var empty := World(Tables(map[], map[], map[], []), map[]);
            Released(Step(Step(empty, CreateTemplate(user, key, id)), CreateVersion(user, id, Nth(0), true, [])).tables,
                     user, key, id, 0)
  {
    var empty := World(Tables(map[], map[], map[], []), map[]);
    var w := Step(empty, CreateTemplate(user, key, id));
    assert w.tables == Tables(map[id := Template(user, key, None)], map[(user, key) := id], map[], []);
    var t := Step(w, CreateVersion(user, id, Nth(0), true, [])).tables;
    assert t.order == [Nth(0)] && t.versions == map[Nth(0) := Version(id, true, [])];
    assert t.order[..0] == [] && NewestFirst(t.versions, [], id) == [];
  }

  lemma ReleaseNext(w: World, user: UserId, key: string, id: TemplateId, n: nat)
    requires n > 0 && Released(w.tables, user, key, id, n - 1)
    ensures Released(Step(w, CreateVersion(user, id, Nth(n), false, [])).tables, user, key, id, n)
  {
    var op := CreateVersion(user, id, Nth(n), false, []);
    NthHasItsLength(n);
    var t, u := w.tables, AfterCommit(w.tables, op);
    assert Refusal(t, op).None? && Step(w, op).tables == u;
    assert u.order[..|t.order|] == t.order;
    SameVersionsSameList(t.versions, u.versions, t.order, id);
  }

  lemma {:induction false} ReleaseState(user: UserId, key: string, id: TemplateId, n: nat)
    ensures Released(Run(Release(user, key, id, n)).tables, user, key, id, n)
  {
    hide Step, Released;
    var ops := Release(user, key, id, n);
    if n == 0 {
      var one := [CreateTemplate(user, key, id)];
      assert ops[..1] == one && one[..0] == [];
      assert Run(one) == Step(Run([]), one[0]) && Run(ops) == Step(Run(one), ops[1]);
      ReleaseFirst(user, key, id);
    } else {
      ReleaseState(user, key, id, n - 1);
      assert ops[..|ops| - 1] == Release(user, key, id, n - 1);
      ReleaseNext(Run(Release(user, key, id, n - 1)), user, key, id, n);
    }
  }

  /** It does happen: after 200 versions more, the active one is no longer what its key resolves to. */
  lemma ActiveVersionCanDropOut(user: UserId, key: string, id: TemplateId)
    ensures var t := Run(Release(user, key, id, MAX_PAGE_LIMIT)).tables;
            id in t.templates && t.templates[id].active.Some? && ChosenBy(t, id) != t.templates[id].active
  {
    ReleaseState(user, key, id, MAX_PAGE_LIMIT);
    NthDown(MAX_PAGE_LIMIT);
    var t := Run(Release(user, key, id, MAX_PAGE_LIMIT)).tables;
    hide Run, Release, NthDownFrom;
    var page := FirstPage(NewestFirst(t.versions, t.order, id));
    forall i | 0 <= i < |page| ensures page[i] != Nth(0) {
      NthHasItsLength(MAX_PAGE_LIMIT - i);
      NthHasItsLength(0);
    }
    ActiveVersionCounts(t, id);
  }

  // ---------------------------------------------------------------- the code that does it

  class PromptStore {
    var templates: map<TemplateId, Template>
    var byKey: map<(UserId, string), TemplateId>
    var versions: map<VersionId, Version>
    var order: seq<VersionId>
    var cache: map<string, Resolved>

    ghost function State(): World
      reads this
    {
      World(Tables(templates, byKey, versions, order), cache)
    }

    constructor ()
      ensures State() == Run([])
    {
      templates, byKey, versions, order, cache := map[], map[], map[], [], map[];
    }

    /** Builds the list of keys and deletes them, if there are any. */
    method InvalidateResolution(user: UserId, templateKey: string, versionId: string)
      modifies `cache
      ensures cache == Invalidated(old(cache), user, templateKey, versionId)
    {
      var keys := [];
      if templateKey != [] {
        keys := keys + [KeyFor(ByKey(user, templateKey))];
      }
      if versionId != [] {
        keys := keys + [KeyFor(ByVersion(user, versionId))];
      }
      cache := cache - (set k | k in keys);
    }

    method AddTemplate(user: UserId, key: string, id: TemplateId) returns (error: Option<Error>)
      modifies this
      ensures State() == Step(old(State()), CreateTemplate(user, key, id))
      ensures error == Refusal(old(State()).tables, CreateTemplate(user, key, id))
    {
      if (user, key) in byKey || id in templates {
        return Some(Conflict);
      }
      templates := templates[id := Template(user, key, None)];
      byKey := byKey[(user, key) := id];
      InvalidateResolution(user, key, []);
      return None;
    }

    method ChangeTemplate(user: UserId, id: TemplateId, active: ActiveChange) returns (error: Option<Error>)
      modifies this
      ensures State() == Step(old(State()), UpdateTemplate(user, id, active))
      ensures error == Refusal(old(State()).tables, UpdateTemplate(user, id, active))
    {
      if id !in templates || templates[id].user != user {
        return Some(TemplateNotFound);
      }
      if active.Activated? {
        if active.id !in versions || versions[active.id].template != id {
          return Some(VersionNotFound);
        }
        if !versions[active.id].published {
          return Some(NotPublished);
        }
      }
      var templateKey := templates[id].key;
      if !active.Untouched? {
        templates := templates[id := templates[id].(active := if active.Activated? then Some(active.id) else None)];
      } else {
        templates := templates[id := templates[id]];
      }
      InvalidateResolution(user, templateKey, []);
      return None;
    }

    method AddVersion(user: UserId, template: TemplateId, id: VersionId, published: bool, content: string)
      returns (error: Option<Error>)
      modifies this
      ensures State() == Step(old(State()), CreateVersion(user, template, id, published, content))
      ensures error == Refusal(old(State()).tables, CreateVersion(user, template, id, published, content))
    {
      if template !in templates || templates[template].user != user {
        return Some(TemplateNotFound);
      }
      if id in versions {
        return Some(Conflict);
      }
      versions := versions[id := Version(template, published, content)];
      order := order + [id];
      if templates[template].active.None? && published {
        templates := templates[template := templates[template].(active := Some(id))];
      } else {
        templates := templates[template := templates[template]];
      }
      InvalidateResolution(user, templates[template].key, id);
      return None;
    }

    method ChangeVersion(user: UserId, template: TemplateId, id: VersionId, publish: Option<bool>, rewrite: Option<string>)
      returns (error: Option<Error>)
      modifies this
      ensures State() == Step(old(State()), UpdateVersion(user, template, id, publish, rewrite))
      ensures error == Refusal(old(State()).tables, UpdateVersion(user, template, id, publish, rewrite))
    {
      if template !in templates || templates[template].user != user {
        return Some(TemplateNotFound);
      }
      if id !in versions || versions[id].template != template {
        return Some(VersionNotFound);
      }
      var version := versions[id];
      if publish.Some? {
        version := version.(published := publish.value);
      }
      if rewrite.Some? {
        version := version.(content := rewrite.value);
      }
      versions := versions[id := version];
      InvalidateResolution(user, templates[template].key, id);
      return None;
    }

    method ResolvePrompt(user: UserId, versionId: string, templateKey: string) returns (answer: Option<Resolved>)
      modifies `cache
      ensures (State(), answer) == StepResolve(old(State()), Resolve(user, versionId, templateKey))
    {
      var ask;
      if versionId != [] {
        ask := ByVersion(user, versionId);
      } else if templateKey != [] {
        ask := ByKey(user, templateKey);
      } else {
        return None;
      }
      var key := KeyFor(ask);
      if key in cache {
        return Some(cache[key]);
      }
      answer := Load(Tables(templates, byKey, versions, order), ask);
      if answer.Some? {
        cache := cache[key := answer.value];
      }
    }
  }
}
