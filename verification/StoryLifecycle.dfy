/** The states of a story and the transition table of the state machine. */
module StoryLifecycle {
  datatype State =
    | Received | Analyzing | Planning | Coding | Reviewing | Testing | Deploying | Verifying | Done | Failed

  /** Which transitions are valid; the machine raises on every other one and leaves the state alone. */
  type Table = (State, State) -> bool

  /** The table the state machine is built with. */
  function Shipped(from: State, to: State): bool {
    match from
    case Received => to == Analyzing
    case Analyzing => to == Planning || to == Failed
    case Planning => to == Coding || to == Failed
    case Coding => to == Reviewing || to == Failed
    case Reviewing => to == Coding || to == Testing || to == Failed
    case Testing => to == Coding || to == Reviewing || to == Deploying || to == Failed
    case Deploying => to == Verifying || to == Coding || to == Failed
    case Verifying => to == Coding || to == Done || to == Failed
    case Done => false
    case Failed => false
  }

  /** The order of the stages. */
  function Rank(s: State): nat {
    match s
    case Received => 0 case Analyzing => 1 case Planning => 2 case Coding => 3 case Reviewing => 4
    case Testing => 5 case Deploying => 6 case Verifying => 7 case Done => 8 case Failed => 9
  }

  /**
    A story goes on to the next stage, or back to coding from a later one, or from testing back to
    review; and every stage between the first and the last can fail. No stage leads to itself.
  */
  lemma ShippedIff(from: State, to: State)
    ensures Shipped(from, to) <==>
            || (Rank(to) == Rank(from) + 1 && to != Failed)
            || (to == Coding && Rank(Coding) < Rank(from) < Rank(Done))
            || (from == Testing && to == Reviewing)
            || (to == Failed && Rank(Received) < Rank(from) < Rank(Done))
    ensures !Shipped(from, from)
  {
  }

  /** Tables under which a story that has been planned once cannot enter planning, and then fails. */
  predicate StopsAtPlanning(table: Table) {
    && table(Received, Analyzing) && table(Analyzing, Failed)
    && !table(Planning, Planning) && table(Planning, Failed)
  }

  lemma ShippedStopsAtPlanning(table: Table)
    requires forall from, to :: table(from, to) == Shipped(from, to)
    ensures StopsAtPlanning(table)
  {
  }
}
