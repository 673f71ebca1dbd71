/** The transition rules of an evaluation: which status may follow which. */
module StateMachine {
  import opened Storage

  type Table = map<Status, seq<Status>>

  /** The table the loader falls back to when the YAML file cannot be read. */
  const FALLBACK: Table := map[
    Submitted := [Queued, Failed, Cancelled],
    Queued := [Running, Failed, Cancelled],
    Running := [Completed, Failed, Cancelled],
    Completed := [], Failed := [], Cancelled := []]

  /** The table of `evaluation-state-transitions.yaml`. */
  const SHIPPED: Table := map[
    Submitted := [Queued, Failed, Cancelled],
    Queued := [Provisioning, Running, Failed, Cancelled],
    Provisioning := [Running, Completed, Queued, Failed, Cancelled],
    Running := [Completed, Failed, Cancelled, Queued, Provisioning],
    Completed := [], Failed := [], Cancelled := []]

  datatype Verdict = Accept | FromTerminal | UnknownStatus | NotAllowed(allowed: seq<Status>) | NoneAllowed

  predicate Known(s: Status) {
    !s.TimedOut? && !s.Other?
  }

  predicate Terminal(s: Status) {
    s in {Completed, Failed, Cancelled}
  }

  function Allowed(table: Table, from: Status): seq<Status> {
    if from in table then table[from] else []
  }

  predicate CanTransition(table: Table, from: Status, to: Status) {
    from == to || to in Allowed(table, from)
  }

  function ValidateTransition(table: Table, from: Status, to: Status): Verdict {
    if from == to then Accept
    else if !Known(from) then UnknownStatus
    else if Terminal(from) then FromTerminal
    else if !CanTransition(table, from, to) then
      if Allowed(table, from) != [] then NotAllowed(Allowed(table, from)) else NoneAllowed
    else Accept
  }

  /** A real change: out of a known, non-terminal status along an edge of the table. */
  predicate Edge(table: Table, from: Status, to: Status) {
    from != to && Known(from) && !Terminal(from) && to in Allowed(table, from)
  }

  lemma ValidMeansEdgeOrStay(table: Table, from: Status, to: Status)
    ensures ValidateTransition(table, from, to) == Accept <==> from == to || Edge(table, from, to)
    ensures Terminal(from) && to != from ==> ValidateTransition(table, from, to) == FromTerminal
  {
  }

  /** Why a transition is refused: an unknown status, a terminal one, or one from which the table leads elsewhere or nowhere. */
  lemma VerdictTells(table: Table, from: Status, to: Status)
    ensures var verdict := ValidateTransition(table, from, to);
      && (verdict == UnknownStatus <==> from != to && !Known(from))
      && (verdict == FromTerminal <==> from != to && Terminal(from))
      && (verdict == NoneAllowed <==> from != to && Known(from) && !Terminal(from) && (from in table ==> table[from] == []))
      && (verdict.NotAllowed? <==>
            from != to && Known(from) && !Terminal(from) && from in table && table[from] != [] && to !in table[from])
      && (verdict.NotAllowed? ==> verdict.allowed == table[from])
  {
  }

  /** How many changes the fallback table can still allow. */
  function Rank(s: Status): nat {
    match s
    case Submitted => 3
    case Queued => 2
    case Running => 1
    case _ => 0
  }

  lemma FallbackEdgesDescend(from: Status, to: Status)
    requires Edge(FALLBACK, from, to)
    ensures Rank(to) < Rank(from)
  {
    match from
    case Submitted => assert FALLBACK[from] == [Queued, Failed, Cancelled];
    case Queued => assert FALLBACK[from] == [Running, Failed, Cancelled];
    case Running => assert FALLBACK[from] == [Completed, Failed, Cancelled];
    case _ =>
  }
}
