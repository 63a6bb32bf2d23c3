/**
 The partial update of a resource (PUT /resources/<id>): each field of the
 request is applied under its own presence rule, the languages and category
 are replaced with orphan cleanup, a patch holding only the applied fields is
 sent to the search index, and the staged changes are committed unless the
 index call failed outside development mode.
 */
module Updates {
  import opened Wrappers
  import opened Directory
  import opened Tags

  /** One key of the request body: missing, present with JSON null, or present with a value. */
  datatype Field<+T> = Absent | Null | Given(value: T)

  /**
   The validated request body. Languages and category arrive as names already
   resolved to tag rows; `free` is present or not, its value already coerced
   to a boolean.
   */
  datatype Update = Update(
    languages: Field<set<string>>,
    category: Field<string>,
    name: Field<string>,
    url: Field<string>,
    free: Option<bool>,
    notes: Field<string>)

  /** Python truthiness of a string key read with `get`: present, not null, not empty. */
  predicate Truthy(f: Field<string>) {
    f.Given? && f.value != ""
  }

  // The per-field rules: languages when not null (an empty list counts),
  // category, name and url when truthy, free and notes whenever the key is present.
  predicate AppliesLanguages(u: Update) { u.languages.Given? }
  predicate AppliesCategory(u: Update) { Truthy(u.category) }
  predicate AppliesName(u: Update) { Truthy(u.name) }
  predicate AppliesUrl(u: Update) { Truthy(u.url) }
  predicate AppliesFree(u: Update) { u.free.Some? }
  predicate AppliesNotes(u: Update) { !u.notes.Absent? }

  /** The stored value of a present `notes` key: JSON null clears the notes. */
  function NotesValue(f: Field<string>): Option<string> {
    if f.Given? then Some(f.value) else None
  }

  /** The search-index patch: the object id and one entry per applied field. */
  datatype Patch = Patch(
    objectID: Id,
    languages: Option<set<string>>,
    category: Option<string>,
    name: Option<string>,
    url: Option<string>,
    free: Option<bool>,
    notes: Option<Option<string>>)

  /** The plain fields of the resource after the update. */
  function ApplyScalars(r: Resource, u: Update): Resource {
    var r1 := if AppliesName(u) then r.(name := u.name.value) else r;
    var r2 := if AppliesUrl(u) then r1.(url := u.url.value) else r1;
    var r3 := if AppliesFree(u) then r2.(free := u.free.value) else r2;
    if AppliesNotes(u) then r3.(notes := NotesValue(u.notes)) else r3
  }

  /** The state the update would commit: languages, then category, then the plain fields. */
  function Stage(s: Store, id: Id, u: Update): (t: Store)
    requires id in s.resources
    ensures t.resources.Keys == s.resources.Keys
    ensures forall j :: j in s.resources && j != id ==> t.resources[j] == s.resources[j]
    ensures t.ledger == s.ledger
    ensures
      var before := s.resources[id];
      var after := t.resources[id];
      && after.languages == (if AppliesLanguages(u) then u.languages.value else before.languages)
      && after.category == (if AppliesCategory(u) then u.category.value else before.category)
      && after.name == (if AppliesName(u) then u.name.value else before.name)
      && after.url == (if AppliesUrl(u) then u.url.value else before.url)
      && after.free == (if AppliesFree(u) then u.free.value else before.free)
      && after.notes == (if AppliesNotes(u) then NotesValue(u.notes) else before.notes)
      && after.upvotes == before.upvotes
      && after.downvotes == before.downvotes
      && after.timesClicked == before.timesClicked
  {
    var s1 := if AppliesLanguages(u) then ReplaceLanguages(s, id, u.languages.value) else s;
    var s2 := if AppliesCategory(u) then ReplaceCategory(s1, id, u.category.value) else s1;
    s2.(resources := s2.resources[id := ApplyScalars(s2.resources[id], u)])
  }

  /**
   The patch handed to the search index, before the commit: the object id and
   an entry exactly for each applied field, carrying the requested value.
   */
  function IndexPatch(id: Id, u: Update): (p: Patch)
    ensures p.objectID == id
    ensures p.languages.Some? <==> AppliesLanguages(u)
    ensures p.category.Some? <==> AppliesCategory(u)
    ensures p.name.Some? <==> AppliesName(u)
    ensures p.url.Some? <==> AppliesUrl(u)
    ensures p.free.Some? <==> AppliesFree(u)
    ensures p.notes.Some? <==> AppliesNotes(u)
    ensures p.languages.Some? ==> p.languages.value == u.languages.value
    ensures p.category.Some? ==> p.category.value == u.category.value && p.category.value != ""
    ensures p.name.Some? ==> p.name.value == u.name.value && p.name.value != ""
    ensures p.url.Some? ==> p.url.value == u.url.value && p.url.value != ""
    ensures p.free.Some? ==> p.free.value == u.free.value
    ensures p.notes.Some? ==> (p.notes.value.Some? <==> u.notes.Given?)
    ensures p.notes.Some? && p.notes.value.Some? ==> p.notes.value.value == u.notes.value
  {
    Patch(
      id,
      if AppliesLanguages(u) then Some(u.languages.value) else None,
      if AppliesCategory(u) then Some(u.category.value) else None,
      if AppliesName(u) then Some(u.name.value) else None,
      if AppliesUrl(u) then Some(u.url.value) else None,
      if AppliesFree(u) then Some(u.free.value) else None,
      if AppliesNotes(u) then Some(NotesValue(u.notes)) else None)
  }

  const FailurePrefix: string := "Algolia failed to update index for resource '"

  /**
   The strict-mode error; it names the resource as staged, so a new name shows
   here. The name can be read back from the message.
   */
  function FailureMessage(name: string): (m: string)
    ensures |m| == |FailurePrefix| + |name| + 1
    ensures m[..|FailurePrefix|] == FailurePrefix
    ensures m[|FailurePrefix|..|m| - 1] == name
    ensures m[|m| - 1] == '\''
  {
    FailurePrefix + name + "'"
  }

  /** The reply of the update route and the patch it sent to the index, if any. */
  datatype UpdateReply = UpdateReply(reply: Reply, sent: Option<Patch>)

  /**
   The update route. `indexOk` is the outcome of the index call and
   `development` whether FLASK_ENV is 'development'. The whole update is
   atomic: the store after the call is either the old store or the staged one.
   */
  function UpdateResource(s: Store, id: Id, u: Update, indexOk: bool, development: bool): (r: UpdateReply)
    ensures id !in s.resources ==> r == UpdateReply(Reply(s, Failure(NotFound)), None)
    ensures id in s.resources ==> r.sent == Some(IndexPatch(id, u))
    ensures r.reply.result.Failure? <==> id !in s.resources || (!indexOk && !development)
    ensures r.reply.result.Failure? ==> r.reply.store == s
    ensures r.reply.result.Success? ==>
      && id in s.resources
      && r.reply.store == Stage(s, id, u)
      && r.reply.result.value == r.reply.store.resources[id]
    ensures id in s.resources && !indexOk && !development ==>
      r.reply.result.error == IndexFailed(FailureMessage(Stage(s, id, u).resources[id].name))
  {
    if id !in s.resources then UpdateReply(Reply(s, Failure(NotFound)), None)
    else
      var staged := Stage(s, id, u);
      var patch := IndexPatch(id, u);
      if !indexOk && !development then
        UpdateReply(Reply(s, Failure(IndexFailed(FailureMessage(staged.resources[id].name)))), Some(patch))
      else
        UpdateReply(Reply(staged, Success(staged.resources[id])), Some(patch))
  }

  /**
   The patch holds exactly the applied fields, each with the value that is
   committed; a field the patch leaves out keeps its old value.
   */
  lemma PatchMatchesStage(s: Store, id: Id, u: Update)
    requires id in s.resources
    ensures
      var p := IndexPatch(id, u);
      var before := s.resources[id];
      var after := Stage(s, id, u).resources[id];
      && p.objectID == id
      && (p.languages.Some? <==> AppliesLanguages(u))
      && (p.category.Some? <==> AppliesCategory(u))
      && (p.name.Some? <==> AppliesName(u))
      && (p.url.Some? <==> AppliesUrl(u))
      && (p.free.Some? <==> AppliesFree(u))
      && (p.notes.Some? <==> AppliesNotes(u))
      && (p.languages.Some? ==> p.languages.value == after.languages)
      && (p.category.Some? ==> p.category.value == after.category)
      && (p.name.Some? ==> p.name.value == after.name)
      && (p.url.Some? ==> p.url.value == after.url)
      && (p.free.Some? ==> p.free.value == after.free)
      && (p.notes.Some? ==> p.notes.value == after.notes)
      && (p.languages.None? ==> after.languages == before.languages)
      && (p.category.None? ==> after.category == before.category)
      && (p.name.None? ==> after.name == before.name)
      && (p.url.None? ==> after.url == before.url)
      && (p.free.None? ==> after.free == before.free)
      && (p.notes.None? ==> after.notes == before.notes)
  {
  }

  /**
   A body holding only a non-empty `name` changes the name and nothing else,
   and the patch carries only the name.
   */
  lemma NameOnlyUpdate(s: Store, id: Id, x: string)
    requires id in s.resources && x != ""
    ensures
      var u := Update(Absent, Absent, Given(x), Absent, None, Absent);
      && Stage(s, id, u) == s.(resources := s.resources[id := s.resources[id].(name := x)])
      && IndexPatch(id, u) == Patch(id, None, None, Some(x), None, None, None)
  {
  }

  /**
   Orphan cleanup as seen from the whole update: a language or category the
   resource had before is deleted exactly when no resource uses it after the
   update, a tag the resource did not have is never deleted, and only the
   requested tags are created.
   */
  lemma OrphanCleanup(s: Store, id: Id, u: Update)
    requires id in s.resources
    ensures
      var before := s.resources[id];
      var t := Stage(s, id, u);
      && (AppliesLanguages(u) ==> u.languages.value <= t.languages)
      && t.languages <= s.languages + (if AppliesLanguages(u) then u.languages.value else {})
      && (forall l :: l in s.languages && !(AppliesLanguages(u) && l in before.languages) ==> l in t.languages)
      && (AppliesLanguages(u) ==> forall l :: l in before.languages && l in s.languages ==>
            (l in t.languages <==> ListsLanguage(t.resources, l)))
      && (AppliesCategory(u) ==> u.category.value in t.categories)
      && t.categories <= s.categories + (if AppliesCategory(u) then {u.category.value} else {})
      && (forall c :: c in s.categories && !(AppliesCategory(u) && c == before.category) ==> c in t.categories)
      && (AppliesCategory(u) && before.category in s.categories ==>
            (before.category in t.categories <==> UsesCategory(t.resources, before.category)))
  {
  }

  /** Sending the same body twice commits the same state as sending it once. */
  lemma UpdateIdempotent(s: Store, id: Id, u: Update)
    requires id in s.resources
    ensures Stage(Stage(s, id, u), id, u) == Stage(s, id, u)
  {
  }

  /** Applying the plain fields leaves tag usage, and so the tag invariant, as it was. */
  lemma ScalarsKeepTags(s: Store, id: Id, u: Update)
    requires id in s.resources && TagsInUse(s)
    ensures TagsInUse(s.(resources := s.resources[id := ApplyScalars(s.resources[id], u)]))
  {
    var r := ApplyScalars(s.resources[id], u);
    LanguageUsageFrame(s.resources, id, r);
    CategoryUsageFrame(s.resources, id, r);
  }

  /** The tag replacements of an update keep the tag tables equal to the tags in use. */
  lemma ReplacementsKeepTags(s: Store, id: Id, u: Update)
    requires id in s.resources && TagsInUse(s)
    ensures
      var s1 := if AppliesLanguages(u) then ReplaceLanguages(s, id, u.languages.value) else s;
      var s2 := if AppliesCategory(u) then ReplaceCategory(s1, id, u.category.value) else s1;
      id in s2.resources && TagsInUse(s2)
  {
    var s1 := if AppliesLanguages(u) then ReplaceLanguages(s, id, u.languages.value) else s;
    if AppliesLanguages(u) {
      ReplaceLanguagesKeepsTags(s, id, u.languages.value);
    }
    if AppliesCategory(u) {
      ReplaceCategoryKeepsTags(s1, id, u.category.value);
    }
  }

  /** The update keeps the tag tables equal to the tags in use. */
  lemma StageKeepsTags(s: Store, id: Id, u: Update)
    requires id in s.resources && TagsInUse(s)
    ensures TagsInUse(Stage(s, id, u))
  {
    ReplacementsKeepTags(s, id, u);
    var s1 := if AppliesLanguages(u) then ReplaceLanguages(s, id, u.languages.value) else s;
    var s2 := if AppliesCategory(u) then ReplaceCategory(s1, id, u.category.value) else s1;
    ScalarsKeepTags(s2, id, u);
  }
}
