/** The bets table: which action button a row shows the session user, which
    columns the table has, and what clicking a row's won/lost button does. */
module BetTable {
  import opened Common
  import opened Models

  /** The three action buttons; only AcceptBet is enabled. */
  datatype AcceptButton = YourBet | AcceptBet | NotEligible

  predicate Enabled(b: AcceptButton) {
    b.AcceptBet?
  }

  /** `renderBetAcceptButton`. `me` is the session user's id and `better`
      the proposer's, either possibly missing; `eligible` are the eligible
      users' ids as the populated row lists them. Two missing ids compare
      equal (undefined === undefined). */
  function AcceptButtonFor(me: Option<UserId>, better: Option<UserId>, eligible: seq<UserId>): (b: AcceptButton)
    ensures b == YourBet <==> me == better
    ensures b == AcceptBet <==> me != better && me.Some? && me.value in eligible
    ensures b == NotEligible <==> me != better && (me.None? || me.value !in eligible)
    ensures Enabled(b) ==> me.Some? && me.value in eligible
  {
    if me == better then YourBet
    else if me.Some? && me.value in eligible then AcceptBet
    else NotEligible
  }

  /** The proposer never gets an enabled button, even when listed as eligible. */
  lemma ProposerCannotAccept(me: UserId, eligible: seq<UserId>)
    ensures AcceptButtonFor(Some(me), Some(me), eligible) == YourBet
    ensures !Enabled(AcceptButtonFor(Some(me), Some(me), eligible))
  {
  }

  const BaseColumns: seq<string> := ["description", "better.firstName", "odds", "maxLose", "eligibleUsers"]

  /** The column fields in order; the action column only when not read-only. */
  function Columns(readOnly: bool): (r: seq<string>)
    ensures |r| >= 6 && r[..5] == BaseColumns && r[|r| - 1] == "won"
    ensures readOnly ==> |r| == 6 && "action" !in r
    ensures !readOnly ==> |r| == 7 && r[5] == "action"
    ensures forall i :: 0 <= i < |r| && r[i] == "action" ==> !readOnly && i == 5
  {
    BaseColumns + (if readOnly then [] else ["action"]) + ["won"]
  }

  /** JavaScript truthiness of a bet's `won`: an unresolved bet is falsy. */
  predicate Won(won: Option<bool>) {
    won == Some(true)
  }

  /** The update an admin's click dispatches. */
  datatype WonUpdate = WonUpdate(betId: string, won: bool)

  /** Clicking the won button: an admin sends the negated flag (an unresolved
      bet becomes won); anyone else sends nothing. */
  function WonClick(admin: bool, betId: string, won: Option<bool>): (r: Option<WonUpdate>)
    ensures r.Some? <==> admin
    ensures r.Some? ==> r.value.betId == betId && (r.value.won <==> !Won(won))
    ensures admin && won.None? ==> r == Some(WonUpdate(betId, true))
  {
    if admin then Some(WonUpdate(betId, !Won(won))) else None
  }

  /** The label and colour of the won button. */
  function WonLabel(won: Option<bool>): (r: (string, string))
    ensures r.0 == "Won" <==> Won(won)
    ensures r.0 == "Lost" <==> !Won(won)
    ensures r.1 == "success" <==> Won(won)
  {
    if Won(won) then ("Won", "success") else ("Lost", "error")
  }

  /** Two admin clicks, each sent back as the bet's new `won`, return a
      resolved bet to where it started and an unresolved one to lost. */
  lemma WonClickTwice(betId: string, won: Option<bool>)
    ensures var once := WonClick(true, betId, won).value.won;
      var twice := WonClick(true, betId, Some(once)).value.won;
      twice == Won(won)
  {
  }
}
