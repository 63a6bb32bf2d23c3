# Resource mutation and voting — a Dafny model

This project models the mutation core of the resources API, a REST backend for a curated
directory of learning resources. Each resource has a name, a url, a `free` flag, notes,
a set of languages, one category, vote counters and a click counter. Three routes change it:

- `PUT /resources/<id>` is a partial update. Each field of the body is applied under its own
  presence rule. Replacing the languages or the category deletes the tags that no resource
  uses any more. A patch holding only the applied fields goes to the search index (Algolia),
  and the commit is gated on that call.
- `PUT /resources/<id>/<upvote|downvote>` is the vote ledger. Each (voter API key, resource)
  pair is a three-state machine (none, upvoted, downvoted). A repeated vote toggles off and an
  opposite vote flips.
- `PUT /resources/<id>/click` is the click counter.

The database is replaced by an immutable `Store`: resources keyed by id, the tables of Language
and Category names, and the vote ledger keyed by `(apikey, id)`. Every route is a pure function
from a store to a `Reply`, which holds the store after the call and the result or error the
caller sees. The index call and the `FLASK_ENV == 'development'` switch are boolean inputs.

Modules:
- `Wrappers`: `Option` and `Result`.
- `Directory`: the data model (`Resource`, `Store`, `Direction`, `Error`, `Reply`).
- `Tags`: the usage scans and the orphan-deleting replacement of languages and category.
- `Votes`: the vote state machine and the ledger tally invariant.
- `Clicks`: the click counter.
- `Updates`: the partial update, the index patch and the commit gating.
- `Consistency`: the store-wide invariant. Counters match the ledger, and the tag tables hold
  exactly the tags in use. Every route preserves it.

In strict mode the index-failure error carries the route's own message,
`Algolia failed to update index for resource '<name>'`. The name is read after the fields
were staged, so a renamed resource is reported under its new, uncommitted name.
`Updates.UpdateResource` and `Updates.FailureMessage` state this.

## Model

| member | source | states |
|---|---|---|
| Votes.ParseDirection | app/api/routes/resource_modification.py:123-125 | a segment is accepted only if it is the name of a direction, and then it parses to that direction; every other segment names no direction |
| Votes.ChangeVotes | app/api/routes/resource_modification.py:123-125 | a segment other than `upvote`/`downvote` is refused as not found with the store unchanged; the two names cast the matching vote |
| Votes.CastVote | app/api/routes/resource_modification.py:136-179 | a missing resource gives not-found with the store unchanged. Otherwise the row `(voter, id)` exists afterwards and no other row changes. The voter's direction becomes none if it equalled the request, else the requested one. The requested counter moves by -1 or +1 to match. The opposite counter drops by 1 only if the voter held the opposite direction. No other field, resource or tag changes |
| Votes.CastVoteKeepsCount | app/api/routes/resource_modification.py:142-174 | if every resource's upvotes/downvotes equal the number of ledger rows for it in that direction, a vote keeps that true, so both counters stay non-negative |
| Votes.VoteTwice | app/api/routes/resource_modification.py:166-173 | casting one direction twice restores the resource exactly when the voter did not start in the opposite direction; the voter ends with that direction if they started with it, and cleared otherwise; other ledger rows are untouched |
| Votes.UpDownDown | app/api/routes/resource_modification.py:155-173 | on a fresh resource with no row for the voter: upvote gives 1/0 with the row upvoted, then downvote gives 0/1 with the row downvoted, then downvote again restores the resource with the row cleared |
| Tags.LanguagesInUse | app/api/routes/resource_modification.py:50-54 | the scanned set holds exactly the languages some resource lists |
| Tags.CategoriesInUse | app/api/routes/resource_modification.py:46-48 | the scanned set holds exactly the categories some resource has |
| Tags.ReplaceLanguages | app/api/routes/resource_modification.py:60-67 | the resource gets the requested languages, which all exist afterwards. A language it did not list before is never deleted. One it did list survives exactly when some resource still lists it after the replacement. Nothing else is created |
| Tags.ReplaceCategory | app/api/routes/resource_modification.py:68-74 | the resource gets the requested category, which exists afterwards. Other categories are never deleted. The old category survives exactly when some resource still has it after the replacement |
| Tags.ReplaceLanguagesKeepsTags | app/api/routes/resource_modification.py:60-67 | if the tag tables held exactly the tags in use before, they still do after replacing the languages |
| Tags.ReplaceCategoryKeepsTags | app/api/routes/resource_modification.py:68-74 | if the tag tables held exactly the tags in use before, they still do after replacing the category |
| Updates.Stage | app/api/routes/resource_modification.py:60-87 | languages are applied when not null (an empty list clears them). Category, name and url are applied only when non-empty. Free and notes are applied whenever the key is present, and a null notes clears them. Counters, other resources and the ledger are unchanged |
| Updates.IndexPatch | app/api/routes/resource_modification.py:44-87 | the patch carries the object id and has an entry exactly for each applied field (languages when not null, category, name and url when non-empty, free and notes when present), holding the requested value; a null notes is sent as null |
| Updates.FailureMessage | app/api/routes/resource_modification.py:95 | the strict-mode message is the fixed prefix, then the resource name, then a closing quote, so the name can be read back from it |
| Updates.PatchMatchesStage | app/api/routes/resource_modification.py:44-87 | the index patch carries the object id. It has an entry exactly for each applied field, holding the value that is committed. A field missing from the patch keeps its old value |
| Updates.NameOnlyUpdate | app/api/routes/resource_modification.py:75-77 | a body holding only a non-empty name changes the name and nothing else in the store, and the patch holds only the id and the name |
| Updates.OrphanCleanup | app/api/routes/resource_modification.py:60-74 | over the whole update, a language or category the resource had before is deleted exactly when no resource uses it afterwards. No other tag is deleted, and only requested tags are created |
| Updates.UpdateIdempotent | app/api/routes/resource_modification.py:60-87 | applying the same body twice stages the same store as applying it once |
| Updates.UpdateResource | app/api/routes/resource_modification.py:36-101 | a missing resource gives not-found with the store unchanged and no patch sent. Otherwise the patch is sent. A failed index call outside development mode returns an error naming the staged resource, with the store unchanged. In every other case the staged store is committed and its resource is returned. The store after the call is the old one or the staged one, never a mix |
| Updates.StageKeepsTags | app/api/routes/resource_modification.py:60-74 | the update keeps the tag tables equal to the tags in use |
| Clicks.AddClick | app/api/routes/resource_modification.py:182-195 | a missing resource gives not-found with the store unchanged; otherwise the click counter rises by exactly 1 and no other field, resource, tag or ledger row changes; no API key is involved |
| Clicks.ClicksAccumulate | app/api/routes/resource_modification.py:182-191 | n clicks in a row raise the counter by exactly n and change nothing else |
| Consistency.CountersNonNegative | app/api/routes/resource_modification.py:164-172 | in a store whose counters match the ledger, no vote counter is negative |
| Consistency.ChangeVotesKeepsConsistent | app/api/routes/resource_modification.py:123-174 | the vote route, with any segment, keeps counters equal to ledger tallies and tag tables equal to tags in use |
| Consistency.AddClickKeepsConsistent | app/api/routes/resource_modification.py:182-191 | the click route keeps the store consistent |
| Consistency.UpdateResourceKeepsConsistent | app/api/routes/resource_modification.py:36-101 | the update route keeps the store consistent, whether it commits or not |

## Left out

- HTTP plumbing is left out: routing, the `authenticate`, `requires_body` and metrics
  decorators, body validation (`validate_resource`, `wrong_type`), `redirect` and the response
  envelope. A redirect to `/404` is the `NotFound` error. Their definitions are not part of this model.
- `get_attributes` is not part of this model. Languages and category arrive as resolved names.
  The model assumes it creates rows only for the names it returns. Those rows are committed
  together with the update.
- `ensure_bool` is not part of this model. `free` arrives as a present-or-absent boolean, so a
  present JSON null for `free` is not distinguished from a boolean.
- The `IntegrityError` and generic `Exception` branches are left out. They depend on database
  constraints and failures that cannot be seen here.
- The search-index call is a boolean outcome. Its two exception kinds, unreachable host and
  service error, are handled identically by the route, so one failure value stands for both.
- `resource.serialize(api_key)`, logging and JSON dumps are output formatting with
  key-dependent redaction. A reply carries the resource record itself.
- The `Key` lookup that links a new ledger row to its voter entity is left out. It does not
  affect counters or directions.
- Concurrency and transaction isolation are left out. The model is sequential, and each route
  is one atomic step.
