/** A trading strategy: an entry signal and an exit signal folded into one
    decision per bar. */
module Strategies {
  import opened Signals

  datatype SignalType = NO_OP | ENTRY | EXIT_TAKE_PROFIT

  datatype Strategy = Strategy(entry: Signal, exit: Signal)

  /** `strategy[index]`: the entry signal is consulted first. */
  function Decide(s: Strategy, index: int): (r: SignalType)
    ensures r == ENTRY <==> s.entry(index)
    ensures r == EXIT_TAKE_PROFIT <==> !s.entry(index) && s.exit(index)
    ensures r == NO_OP <==> !s.entry(index) && !s.exit(index)
  {
    if s.entry(index) then ENTRY
    else if s.exit(index) then EXIT_TAKE_PROFIT
    else NO_OP
  }

  /** Entry wins over exit: adding or removing an exit signal never changes a
      bar where entry fires, and with the same signal on both sides there is
      never an exit. */
  lemma EntryHasPriority(entry: Signal, exit: Signal, other: Signal, index: int)
    ensures entry(index) ==> Decide(Strategy(entry, exit), index) == Decide(Strategy(entry, other), index)
    ensures Decide(Strategy(entry, entry), index) != EXIT_TAKE_PROFIT
    ensures Decide(Strategy(entry, exit), index) == Decide(Strategy(entry, And(exit, Not(entry))), index)
  {
  }
}
