/**
 The whole-store invariant: vote counters match the ledger and the tag tables
 hold exactly the tags in use. Every mutation route keeps it, whatever its
 outcome.
 */
module Consistency {
  import opened Directory
  import opened Tags
  import opened Votes
  import opened Clicks
  import opened Updates

  ghost predicate Consistent(s: Store) {
    VotesCounted(s) && TagsInUse(s)
  }

  /** Counters are never negative in a store whose counters match the ledger. */
  lemma CountersNonNegative(s: Store, id: Id)
    requires VotesCounted(s) && id in s.resources
    ensures s.resources[id].upvotes >= 0 && s.resources[id].downvotes >= 0
  {
    assert s.resources[id].Count(Upvote) == |Tally(s.ledger, id, Upvote)|;
    assert s.resources[id].Count(Downvote) == |Tally(s.ledger, id, Downvote)|;
  }

  /** A store whose counters, ledger and tag usage agree with another's is as consistent. */
  lemma SameCountsAndTags(s: Store, t: Store)
    requires Consistent(s)
    requires t.resources.Keys == s.resources.Keys && t.ledger == s.ledger
    requires forall j :: j in s.resources ==>
      t.resources[j].upvotes == s.resources[j].upvotes && t.resources[j].downvotes == s.resources[j].downvotes
    requires TagsInUse(t)
    ensures Consistent(t)
  {
  }

  /** The vote route keeps the store consistent. */
  lemma ChangeVotesKeepsConsistent(s: Store, voter: ApiKey, id: Id, segment: string)
    requires Consistent(s)
    ensures Consistent(ChangeVotes(s, voter, id, segment).store)
  {
    var p := ParseDirection(segment);
    if p.Some? {
      CastVoteKeepsCount(s, voter, id, p.value);
      if id in s.resources {
        var r := CastVote(s, voter, id, p.value).store.resources[id];
        LanguageUsageFrame(s.resources, id, r);
        CategoryUsageFrame(s.resources, id, r);
      }
    }
  }

  /** The click route keeps the store consistent. */
  lemma AddClickKeepsConsistent(s: Store, id: Id)
    requires Consistent(s)
    ensures Consistent(AddClick(s, id).store)
  {
  }

  /** The update route keeps the store consistent, committed or not. */
  lemma UpdateResourceKeepsConsistent(s: Store, id: Id, u: Update, indexOk: bool, development: bool)
    requires Consistent(s)
    ensures Consistent(UpdateResource(s, id, u, indexOk, development).reply.store)
  {
    if id in s.resources {
      StageKeepsTags(s, id, u);
      SameCountsAndTags(s, Stage(s, id, u));
    }
  }
}
