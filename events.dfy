/** The UI events that replace the query, as one reducer, and the guard the
    view puts on each: the prev and next buttons are disabled unless a
    previous or next page exists, and the page-size selector only offers
    its listed options. */
module Events {

  import opened Queries
  import opened Pagination

  datatype Event =
    | NameChanged(name: string)
    | AgeChanged(age: string)
    | LimitChanged(limit: int)
    | NextClicked
    | PrevClicked

  /** One interaction: the event and the total of the response on screen when it fired. */
  datatype Interaction = Interaction(event: Event, total: nat)

  /** The query after an event: each event picks its updater. */
  function Step(q: Query, e: Event): (r: Query)
    ensures r.name == (if e.NameChanged? then e.name else q.name)
    ensures r.age == (if e.AgeChanged? then e.age else q.age)
    ensures r.limit == (if e.LimitChanged? then e.limit else q.limit)
    ensures e.NameChanged? || e.AgeChanged? || e.LimitChanged? ==> r.offset == 0
    ensures e.NextClicked? ==> r.offset == q.offset + q.limit
    ensures e.PrevClicked? ==> r.offset == q.offset - q.limit
  {
    match e
    case NameChanged(name) => WithName(q, name)
    case AgeChanged(age) => WithAge(q, age)
    case LimitChanged(limit) => WithLimit(q, limit)
    case NextClicked => NextPage(q)
    case PrevClicked => PrevPage(q)
  }

  /** Whether the view lets the event happen on this query and total. */
  predicate Enabled(q: Query, total: nat, e: Event): (b: bool)
    ensures e.NameChanged? || e.AgeChanged? ==> b
    ensures e.LimitChanged? ==> (b <==> e.limit in LimitOptions)
    ensures e.LimitChanged? && b ==> e.limit > 0
    ensures e.NextClicked? ==> (b <==> Aligned(q) && q.offset + q.limit < total)
    ensures e.PrevClicked? ==> (b <==> Aligned(q) && q.offset > 0)
  {
    match e
    case NameChanged(_) => true
    case AgeChanged(_) => true
    case LimitChanged(limit) => limit in LimitOptions
    case NextClicked => Aligned(q) && (HasNextIff(q, total); Derive(q, total).hasNext)
    case PrevClicked => Aligned(q) && (HasPrevIff(q, total); Derive(q, total).hasPrev)
  }

  /** The query after a run of interactions, one after another. */
  function Replay(q: Query, run: seq<Interaction>): Query
    decreases |run|
  {
    if run == [] then q else Replay(Step(q, run[0].event), run[1..])
  }

  /** Every interaction of the run was enabled when it fired. */
  predicate AllEnabled(q: Query, run: seq<Interaction>)
    decreases |run|
  {
    run == [] || (Enabled(q, run[0].total, run[0].event) && AllEnabled(Step(q, run[0].event), run[1..]))
  }

  /** An enabled event keeps a reachable query reachable. */
  lemma StepKeepsValid(q: Query, total: nat, e: Event)
    requires Valid(q) && Enabled(q, total, e)
    ensures Valid(Step(q, e))
  {
    match e
    case NameChanged(name) => ResetKeepsValid(q, name, "", 1);
    case AgeChanged(age) => ResetKeepsValid(q, "", age, 1);
    case LimitChanged(limit) => ResetKeepsValid(q, "", "", limit);
    case NextClicked => NextKeepsValid(q);
    case PrevClicked => PrevWhenEnabled(q, total);
  }

  /** Any run of enabled interactions from a reachable query ends in a reachable query. */
  lemma {:induction false} ReplayKeepsValid(q: Query, run: seq<Interaction>)
    requires Valid(q) && AllEnabled(q, run)
    ensures Valid(Replay(q, run))
    decreases |run|
  {
    if run != [] {
      StepKeepsValid(q, run[0].total, run[0].event);
      ReplayKeepsValid(Step(q, run[0].event), run[1..]);
    }
  }

  /** Whatever the user does through the view, starting from the initial query,
      the offset stays a non-negative multiple of the page size and the page
      number shown is at least 1. */
  lemma {:induction false} ReachableFromBase(run: seq<Interaction>, total: nat)
    requires AllEnabled(BaseQuery, run)
    ensures Valid(Replay(BaseQuery, run))
    ensures Derive(Replay(BaseQuery, run), total).page >= 1
  {
    ReplayKeepsValid(BaseQuery, run);
    PageOrder(Replay(BaseQuery, run));
  }
}
