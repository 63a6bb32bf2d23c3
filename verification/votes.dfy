/**
 The vote ledger: a per-(voter, resource) state machine over none / upvoted /
 downvoted, with the resource's counters adjusted on every transition. A
 repeated vote toggles off; an opposite vote flips.
 */
module Votes {
  import opened Wrappers
  import opened Directory

  /** The route segment that names a direction. */
  function SegmentOf(d: Direction): string {
    match d
    case Upvote => "upvote"
    case Downvote => "downvote"
  }

  /** Only the two direction names reach the ledger; anything else is refused. */
  function ParseDirection(segment: string): (d: Option<Direction>)
    ensures d.Some? ==> SegmentOf(d.value) == segment
    ensures d.None? ==> forall e :: SegmentOf(e) != segment
  {
    if segment == "upvote" then Some(Upvote)
    else if segment == "downvote" then Some(Downvote)
    else None
  }

  /** Casting `d` on an existing resource, keyed by the caller's API key. */
  function CastVote(s: Store, voter: ApiKey, id: Id, d: Direction): (r: Reply)
    ensures id !in s.resources ==> r == Reply(s, Failure(NotFound))
    ensures r.store.resources.Keys == s.resources.Keys
    ensures id in s.resources ==>
      var before := Standing(s.ledger, voter, id);
      var old_ := s.resources[id];
      var new_ := r.store.resources[id];
      && r.result == Success(new_)
      && r.store.resources == s.resources[id := new_]
      && r.store.languages == s.languages
      && r.store.categories == s.categories
      // the row exists afterwards and only that row changed
      && (voter, id) in r.store.ledger
      && r.store.ledger - {(voter, id)} == s.ledger - {(voter, id)}
      // the transition table
      && Standing(r.store.ledger, voter, id) == (if before == Some(d) then None else Some(d))
      && new_.Count(d) == old_.Count(d) + (if before == Some(d) then -1 else 1)
      && new_.Count(d.Opposite()) == old_.Count(d.Opposite()) - (if before == Some(d.Opposite()) then 1 else 0)
      // nothing but the counters changes on the resource
      && new_.(upvotes := 0, downvotes := 0) == old_.(upvotes := 0, downvotes := 0)
  {
    if id !in s.resources then Reply(s, Failure(NotFound))
    else
      var resource := s.resources[id];
      var key := (voter, id);
      var initial := resource.Count(d);
      var opposite := resource.Count(d.Opposite());
      var (updated, entry) :=
        if key !in s.ledger then
          (resource.WithCount(d, initial + 1), Some(d))
        else if s.ledger[key] == Some(d) then
          (resource.WithCount(d, initial - 1), None)
        else
          var flipped :=
            if s.ledger[key] == Some(d.Opposite()) then resource.WithCount(d.Opposite(), opposite - 1)
            else resource;
          (flipped.WithCount(d, initial + 1), Some(d));
      var store := s.(resources := s.resources[id := updated], ledger := s.ledger[key := entry]);
      Reply(store, Success(updated))
  }

  /** The vote route: the segment is checked first, then the resource. */
  function ChangeVotes(s: Store, voter: ApiKey, id: Id, segment: string): (r: Reply)
    ensures segment != "upvote" && segment != "downvote" ==> r == Reply(s, Failure(NotFound))
    ensures segment == "upvote" ==> r == CastVote(s, voter, id, Upvote)
    ensures segment == "downvote" ==> r == CastVote(s, voter, id, Downvote)
  {
    match ParseDirection(segment)
    case None => Reply(s, Failure(NotFound))
    case Some(d) => CastVote(s, voter, id, d)
  }

  /** The ledger rows for resource `id` that currently hold direction `d`. */
  ghost function Tally(ledger: map<(ApiKey, Id), Option<Direction>>, id: Id, d: Direction): set<(ApiKey, Id)> {
    set k | k in ledger && k.1 == id && ledger[k] == Some(d)
  }

  /** Every resource's counters equal the number of ledger rows in each direction. */
  ghost predicate VotesCounted(s: Store) {
    forall id, d :: id in s.resources ==> s.resources[id].Count(d) == |Tally(s.ledger, id, d)|
  }

  /** A write to another resource's row leaves this resource's tally alone. */
  lemma TallyElsewhere(ledger: map<(ApiKey, Id), Option<Direction>>, key: (ApiKey, Id), v: Option<Direction>, id: Id, d: Direction)
    requires key.1 != id
    ensures Tally(ledger[key := v], id, d) == Tally(ledger, id, d)
  {
  }

  /** How one ledger write moves the tally of the resource the row belongs to. */
  lemma TallyAfterWrite(ledger: map<(ApiKey, Id), Option<Direction>>, key: (ApiKey, Id), v: Option<Direction>, d: Direction)
    ensures
      |Tally(ledger[key := v], key.1, d)|
        == |Tally(ledger, key.1, d)|
           - (if key in ledger && ledger[key] == Some(d) then 1 else 0)
           + (if v == Some(d) then 1 else 0)
  {
    var id := key.1;
    var before := Tally(ledger, id, d);
    var after := Tally(ledger[key := v], id, d);
    var rest := before - {key};
    var added: set<(ApiKey, Id)> := if v == Some(d) then {key} else {};
    forall k ensures k in after <==> k in rest + added {
      if k != key {
        assert k in after <==> k in before;
      }
    }
    assert after == rest + added;
    if key in ledger && ledger[key] == Some(d) {
      assert key in before;
      assert before == rest + {key};
    } else {
      assert key !in before;
      assert before == rest;
    }
  }

  /** Every vote transition keeps the counters equal to the ledger tallies, hence non-negative. */
  lemma CastVoteKeepsCount(s: Store, voter: ApiKey, id: Id, d: Direction)
    requires VotesCounted(s)
    ensures VotesCounted(CastVote(s, voter, id, d).store)
    ensures forall j :: j in CastVote(s, voter, id, d).store.resources ==>
      var res := CastVote(s, voter, id, d).store.resources[j];
      res.upvotes >= 0 && res.downvotes >= 0
  {
    var t := CastVote(s, voter, id, d).store;
    if id in s.resources {
      var key := (voter, id);
      var entry := if Standing(s.ledger, voter, id) == Some(d) then None else Some(d);
      assert t.ledger == s.ledger[key := entry] by {
        assert forall k :: k in t.ledger <==> k in s.ledger[key := entry] by {
          forall k ensures k in t.ledger <==> k in s.ledger[key := entry] {
            if k != key {
              assert k in t.ledger <==> k in t.ledger - {key};
              assert k in s.ledger <==> k in s.ledger - {key};
            }
          }
        }
        forall k | k in t.ledger ensures t.ledger[k] == s.ledger[key := entry][k] {
          if k != key {
            assert (t.ledger - {key})[k] == (s.ledger - {key})[k];
          }
        }
      }
      forall j, e | j in t.resources
        ensures t.resources[j].Count(e) == |Tally(t.ledger, j, e)|
      {
        if j == id {
          TallyAfterWrite(s.ledger, key, entry, e);
        } else {
          TallyElsewhere(s.ledger, key, entry, j, e);
        }
      }
    }
    forall j | j in t.resources
      ensures t.resources[j].upvotes >= 0 && t.resources[j].downvotes >= 0
    {
      assert t.resources[j].Count(Upvote) == |Tally(t.ledger, j, Upvote)|;
      assert t.resources[j].Count(Downvote) == |Tally(t.ledger, j, Downvote)|;
    }
  }

  /**
   Casting the same direction twice restores the resource exactly when the
   voter did not start in the opposite direction; the voter ends where they
   began if they had voted `d`, and with a cleared vote otherwise.
   */
  lemma VoteTwice(s: Store, voter: ApiKey, id: Id, d: Direction)
    requires id in s.resources
    ensures
      var t := CastVote(CastVote(s, voter, id, d).store, voter, id, d).store;
      var before := Standing(s.ledger, voter, id);
      && (t.resources == s.resources <==> before != Some(d.Opposite()))
      && Standing(t.ledger, voter, id) == (if before == Some(d) then Some(d) else None)
      && t.ledger - {(voter, id)} == s.ledger - {(voter, id)}
  {
  }

  /**
   One voter on a fresh resource: upvote, then downvote, then downvote again
   leaves both counters at zero and the voter's row cleared.
   */
  lemma UpDownDown(s: Store, voter: ApiKey, id: Id)
    requires id in s.resources && s.resources[id].upvotes == 0 && s.resources[id].downvotes == 0
    requires (voter, id) !in s.ledger
    ensures
      var s1 := ChangeVotes(s, voter, id, "upvote").store;
      var s2 := ChangeVotes(s1, voter, id, "downvote").store;
      var s3 := ChangeVotes(s2, voter, id, "downvote").store;
      && s1.resources[id].upvotes == 1 && s1.resources[id].downvotes == 0
      && s1.ledger[(voter, id)] == Some(Upvote)
      && s2.resources[id].upvotes == 0 && s2.resources[id].downvotes == 1
      && s2.ledger[(voter, id)] == Some(Downvote)
      && s3.resources[id] == s.resources[id]
      && s3.ledger[(voter, id)] == None
  {
  }
}
