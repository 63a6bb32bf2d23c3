/**
 The persistent state of the resource directory: resources keyed by id, the
 tables of Language and Category names, and the vote ledger keyed by
 (voter API key, resource id). The relational database is replaced by these
 immutable maps and sets.
 */
module Directory {
  import opened Wrappers

  type Id = nat
  type ApiKey = string

  /** A vote direction, as named by the route segment `upvote` / `downvote`. */
  datatype Direction = Upvote | Downvote {

    function Opposite(): (o: Direction)
      ensures o != this
    {
      if Upvote? then Downvote else Upvote
    }
  }

  /**
   A directory entry. The vote counters are unbounded integers because the
   vote route decrements them without a guard; that they stay non-negative is a
   consequence of the ledger invariant (Votes.VotesCounted), not of the type.
   */
  datatype Resource = Resource(
    name: string,
    url: string,
    free: bool,
    notes: Option<string>,
    languages: set<string>,
    category: string,
    upvotes: int,
    downvotes: int,
    timesClicked: nat)
  {
    /** The counter a direction adds to. */
    function Count(d: Direction): int {
      match d
      case Upvote => upvotes
      case Downvote => downvotes
    }

    /** This resource with the counter of `d` set to `n`, nothing else touched. */
    function WithCount(d: Direction, n: int): (r: Resource)
      ensures r.Count(d) == n
      ensures r.Count(d.Opposite()) == Count(d.Opposite())
      ensures r.(upvotes := upvotes, downvotes := downvotes) == this
    {
      match d
      case Upvote => this.(upvotes := n)
      case Downvote => this.(downvotes := n)
    }
  }

  /**
   The ledger holds one row per (voter, resource) pair that ever voted; a row
   is created on the first vote and never removed, only its direction changes
   (`None` is a cleared vote).
   */
  datatype Store = Store(
    resources: map<Id, Resource>,
    languages: set<string>,
    categories: set<string>,
    ledger: map<(ApiKey, Id), Option<Direction>>)

  /** The failures the mutation routes report. */
  datatype Error =
    | NotFound                    // redirect to /404
    | IndexFailed(message: string) // search index refused the patch, strict mode

  /** What a route leaves behind: the state after the call and what it answers. */
  datatype Reply = Reply(store: Store, result: Result<Resource, Error>)

  /** The direction a voter currently holds on a resource; no row reads as none. */
  function Standing(ledger: map<(ApiKey, Id), Option<Direction>>, voter: ApiKey, id: Id): Option<Direction> {
    if (voter, id) in ledger then ledger[(voter, id)] else None
  }
}
