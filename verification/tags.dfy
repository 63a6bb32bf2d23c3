/**
 Tag reconciliation: which Language and Category names the resources still
 use, and replacing one resource's languages or category while deleting the
 tags that replacement leaves unreferenced. Orphans are found by a full scan
 of the resources after the replacement, as the update route does.
 */
module Tags {
  import opened Directory

  /** Some resource still lists language `l`. */
  ghost predicate ListsLanguage(resources: map<Id, Resource>, l: string) {
    exists j :: j in resources && l in resources[j].languages
  }

  /** Some resource still has category `c`. */
  ghost predicate UsesCategory(resources: map<Id, Resource>, c: string) {
    exists j :: j in resources && resources[j].category == c
  }

  /** The names of every language any resource lists. */
  function LanguagesInUse(resources: map<Id, Resource>): (used: set<string>)
    ensures forall l :: l in used <==> ListsLanguage(resources, l)
  {
    set j, l | j in resources && l in resources[j].languages :: l
  }

  /** The names of every category any resource has. */
  function CategoriesInUse(resources: map<Id, Resource>): (used: set<string>)
    ensures forall c :: c in used <==> UsesCategory(resources, c)
  {
    set j | j in resources :: resources[j].category
  }

  /** The tag tables hold exactly the tags in use: no orphan and no dangling reference. */
  ghost predicate TagsInUse(s: Store) {
    && s.languages == LanguagesInUse(s.resources)
    && s.categories == CategoriesInUse(s.resources)
  }

  /**
   Gives resource `id` the languages `langs` (creating rows for unseen names),
   then deletes each language it listed before that no resource lists any more.
   */
  function ReplaceLanguages(s: Store, id: Id, langs: set<string>): (t: Store)
    requires id in s.resources
    ensures t.resources == s.resources[id := s.resources[id].(languages := langs)]
    ensures t.categories == s.categories && t.ledger == s.ledger
    // every requested language exists afterwards, and nothing else is created
    ensures langs <= t.languages <= s.languages + langs
    // a language the resource did not list before is never deleted
    ensures forall l :: l in s.languages && l !in s.resources[id].languages ==> l in t.languages
    // one it did list survives exactly when some resource still lists it
    ensures forall l :: l in s.resources[id].languages && l in s.languages ==>
      (l in t.languages <==> ListsLanguage(t.resources, l))
  {
    var previous := s.resources[id].languages;
    var resources := s.resources[id := s.resources[id].(languages := langs)];
    var inUse := LanguagesInUse(resources);
    assert forall l :: l in langs ==> l in resources[id].languages;
    var orphans := set l | l in previous && l !in inUse;
    s.(resources := resources, languages := (s.languages + langs) - orphans)
  }

  /**
   Gives resource `id` the category `c` (creating it if unseen), then deletes
   the old category if no resource has it any more.
   */
  function ReplaceCategory(s: Store, id: Id, c: string): (t: Store)
    requires id in s.resources
    ensures t.resources == s.resources[id := s.resources[id].(category := c)]
    ensures t.languages == s.languages && t.ledger == s.ledger
    ensures c in t.categories && t.categories <= s.categories + {c}
    ensures forall x :: x in s.categories && x != s.resources[id].category ==> x in t.categories
    ensures s.resources[id].category in s.categories ==>
      (s.resources[id].category in t.categories <==> UsesCategory(t.resources, s.resources[id].category))
  {
    var previous := s.resources[id].category;
    var resources := s.resources[id := s.resources[id].(category := c)];
    var inUse := CategoriesInUse(resources);
    assert resources[id].category == c;
    var orphans := if previous in inUse then {} else {previous};
    s.(resources := resources, categories := (s.categories + {c}) - orphans)
  }

  /** Rewriting a resource without touching its languages leaves language usage as it was. */
  lemma LanguageUsageFrame(resources: map<Id, Resource>, id: Id, r: Resource)
    requires id in resources && r.languages == resources[id].languages
    ensures LanguagesInUse(resources[id := r]) == LanguagesInUse(resources)
  {
    var m := resources[id := r];
    forall l ensures ListsLanguage(m, l) <==> ListsLanguage(resources, l) {
      if ListsLanguage(m, l) {
        var j :| j in m && l in m[j].languages;
        assert j in resources && l in resources[j].languages;
      }
      if ListsLanguage(resources, l) {
        var j :| j in resources && l in resources[j].languages;
        assert j in m && l in m[j].languages;
      }
    }
  }

  /** Rewriting a resource without touching its category leaves category usage as it was. */
  lemma CategoryUsageFrame(resources: map<Id, Resource>, id: Id, r: Resource)
    requires id in resources && r.category == resources[id].category
    ensures CategoriesInUse(resources[id := r]) == CategoriesInUse(resources)
  {
    var m := resources[id := r];
    forall c ensures UsesCategory(m, c) <==> UsesCategory(resources, c) {
      if UsesCategory(m, c) {
        var j :| j in m && m[j].category == c;
        assert j in resources && resources[j].category == c;
      }
      if UsesCategory(resources, c) {
        var j :| j in resources && resources[j].category == c;
        assert j in m && m[j].category == c;
      }
    }
  }

  /** Replacing languages keeps the tag tables equal to the tags in use. */
  lemma ReplaceLanguagesKeepsTags(s: Store, id: Id, langs: set<string>)
    requires id in s.resources && TagsInUse(s)
    ensures TagsInUse(ReplaceLanguages(s, id, langs))
  {
    var t := ReplaceLanguages(s, id, langs);
    forall l ensures l in t.languages <==> ListsLanguage(t.resources, l) {
      if l in t.languages && l !in langs {
        assert ListsLanguage(s.resources, l);
        var j :| j in s.resources && l in s.resources[j].languages;
        if j != id {
          assert j in t.resources && l in t.resources[j].languages;
        }
      }
      if ListsLanguage(t.resources, l) && l !in langs {
        var j :| j in t.resources && l in t.resources[j].languages;
        assert j != id;
        assert l in s.resources[j].languages;
        assert ListsLanguage(s.resources, l);
      }
      if l in langs {
        assert id in t.resources && l in t.resources[id].languages;
      }
    }
    CategoryUsageFrame(s.resources, id, s.resources[id].(languages := langs));
  }

  /** Replacing the category keeps the tag tables equal to the tags in use. */
  lemma ReplaceCategoryKeepsTags(s: Store, id: Id, c: string)
    requires id in s.resources && TagsInUse(s)
    ensures TagsInUse(ReplaceCategory(s, id, c))
  {
    var t := ReplaceCategory(s, id, c);
    var previous := s.resources[id].category;
    forall x ensures x in t.categories <==> UsesCategory(t.resources, x) {
      if x in t.categories && x != c {
        assert UsesCategory(s.resources, x);
        var j :| j in s.resources && s.resources[j].category == x;
        if j != id {
          assert j in t.resources && t.resources[j].category == x;
        }
      }
      if UsesCategory(t.resources, x) && x != c {
        var j :| j in t.resources && t.resources[j].category == x;
        assert j != id;
        assert UsesCategory(s.resources, x);
      }
      if x == c {
        assert id in t.resources && t.resources[id].category == x;
      }
    }
    LanguageUsageFrame(s.resources, id, s.resources[id].(category := c));
  }
}
