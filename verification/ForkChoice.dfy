/** The fork choice rule: which of two heads the chain should follow. */
module ForkChoice {
  import opened Prelude
  import opened Headers

  /** A head as the rule sees it. `td` is None when its total difficulty is not stored. */
  datatype Candidate = Candidate(td: Option<nat>, number: nat, preserved: bool)

  /** Whether to move from `current` to `extern`; None is the missing-difficulty error.
      `draw` is the outcome of the coin that breaks an exact tie. */
  function ReorgNeeded(current: Candidate, extern: Candidate, terminalTd: Option<nat>, draw: bool)
    : (r: Option<bool>)
    ensures r.None? <==> current.td.None? || extern.td.None?
  {
    if current.td.None? || extern.td.None? then
      None
    else if terminalTd.Some? && terminalTd.value <= extern.td.value then
      Some(true)
    else if extern.td.value > current.td.value then
      Some(true)
    else if extern.td.value < current.td.value then
      Some(false)
    else if extern.number < current.number then
      Some(true)
    else if extern.number == current.number then
      Some(!current.preserved && (extern.preserved || draw))
    else
      Some(false)
  }

  /** Heads are ranked by total difficulty, ties by the lower number. */
  predicate Outranks(td: nat, number: nat, otherTd: nat, otherNumber: nat) {
    td > otherTd || (td == otherTd && number < otherNumber)
  }

  predicate NotWorse(head: Header, previous: Header) {
    !Outranks(TotalDifficulty(previous), previous.number, TotalDifficulty(head), head.number)
  }

  /** Past the terminal difficulty the external header is trusted. */
  predicate MayFinalise(h: Header, terminalTd: Option<nat>) {
    terminalTd.Some? && terminalTd.value <= TotalDifficulty(h)
  }

  /** Past the terminal difficulty, or with a higher rank, a header is always followed. */
  predicate MustFollow(h: Header, head: Header, terminalTd: Option<nat>) {
    MayFinalise(h, terminalTd) || Outranks(TotalDifficulty(h), h.number, TotalDifficulty(head), head.number)
  }

  /** The header `h` wins against `head`: it must be followed, or both rank equally and the preserve flags
      and the coin favour it. */
  predicate Wins(h: Header, head: Header, terminalTd: Option<nat>, preserve: Header -> bool, draw: bool) {
    MustFollow(h, head, terminalTd) || (NotWorse(h, head) && !preserve(head) && (preserve(h) || draw))
  }

  /** The decision fails exactly when a total difficulty is missing. Otherwise, before the terminal
      difficulty the rule follows the ranking and consults the preserve flags and the coin only between
      heads of equal rank; past it the external head always wins. */
  lemma FollowsRanking(current: Candidate, extern: Candidate, terminalTd: Option<nat>, draw: bool)
    ensures
      var r := ReorgNeeded(current, extern, terminalTd, draw);
      && (r.None? <==> current.td.None? || extern.td.None?)
      && (r.Some? ==>
            if terminalTd.Some? && terminalTd.value <= extern.td.value then r == Some(true)
            else
              && (Outranks(extern.td.value, extern.number, current.td.value, current.number) ==> r == Some(true))
              && (Outranks(current.td.value, current.number, extern.td.value, extern.number) ==> r == Some(false))
              && (current.td == extern.td && current.number == extern.number ==>
                    r == Some(!current.preserved && (extern.preserved || draw))))
  {
  }

  /** Between headers whose total difficulties are stored the decision is who wins. */
  lemma ChoosesWinner(h: Header, head: Header, terminalTd: Option<nat>, preserve: Header -> bool, draw: bool)
    ensures ReorgNeeded(
              Candidate(Some(TotalDifficulty(head)), head.number, preserve(head)),
              Candidate(Some(TotalDifficulty(h)), h.number, preserve(h)), terminalTd, draw)
            == Some(Wins(h, head, terminalTd, preserve, draw))
  {
    FollowsRanking(
      Candidate(Some(TotalDifficulty(head)), head.number, preserve(head)),
      Candidate(Some(TotalDifficulty(h)), h.number, preserve(h)), terminalTd, draw);
  }
}
