/** The "propose a bet" form: odds picked as numerator and denominator, the
    derived maximum win, the choice of eligible users and the reset after
    submitting. Money is `real`; the floating-point rounding of the browser
    is not modelled. */
module NewBet {
  import opened Common
  import opened Models

  /** The odds pickers offer 1..18 for the numerator and 1..12 for the
      denominator, so neither division below is by zero. */
  predicate ValidOdds(numerator: int, denominator: int) {
    1 <= numerator <= 18 && 1 <= denominator <= 12
  }

  /** The form state. `maxLose` is None while its text field is empty (its
      parse is then NaN, which is not modelled further). */
  datatype Form = Form(description: string, selectedUsers: seq<UserId>, numerator: int, denominator: int,
                       maxLose: Option<real>)

  const InitialForm := Form("", [], 1, 1, None)

  /** What the form sends. */
  datatype BetData = BetData(description: string, odds: real, maxLose: Option<real>,
                             eligibleUsers: seq<UserId>, maxWin: Option<real>)

  /** maxLose × (denominator / numerator). */
  function MaxWin(maxLose: real, numerator: int, denominator: int): (r: real)
    requires ValidOdds(numerator, denominator)
    ensures r * (numerator as real) == maxLose * (denominator as real)
  {
    maxLose * ((denominator as real) / (numerator as real))
  }

  /** numerator / denominator. */
  function Odds(numerator: int, denominator: int): (r: real)
    requires ValidOdds(numerator, denominator)
    ensures r * (denominator as real) == numerator as real
  {
    (numerator as real) / (denominator as real)
  }

  /** Submitting: the request body and the form reset to its initial values. */
  function Submit(f: Form): (r: (BetData, Form))
    requires ValidOdds(f.numerator, f.denominator)
    ensures r.1 == InitialForm
    ensures r.0.description == f.description && r.0.eligibleUsers == f.selectedUsers && r.0.maxLose == f.maxLose
    ensures r.0.odds * (f.denominator as real) == f.numerator as real
    ensures r.0.maxWin.Some? <==> f.maxLose.Some?
    ensures f.maxLose.Some? ==> r.0.maxWin.value * (f.numerator as real) == f.maxLose.value * (f.denominator as real)
  {
    var maxWin := match f.maxLose case None => None case Some(m) => Some(MaxWin(m, f.numerator, f.denominator));
    (BetData(f.description, Odds(f.numerator, f.denominator), f.maxLose, f.selectedUsers, maxWin), InitialForm)
  }

  /** The odds sent times the maximum win is the stake: the bet is fair at
      its own odds. */
  lemma OddsTimesMaxWin(maxLose: real, numerator: int, denominator: int)
    requires ValidOdds(numerator, denominator)
    ensures Odds(numerator, denominator) * MaxWin(maxLose, numerator, denominator) == maxLose
  {
    var n, d := numerator as real, denominator as real;
    calc {
      Odds(numerator, denominator) * MaxWin(maxLose, numerator, denominator);
      (n / d) * (maxLose * (d / n));
      maxLose * ((n / d) * (d / n));
      { assert (n / d) * (d / n) == 1.0; }
      maxLose;
    }
  }

  /** Even odds win exactly the stake. */
  lemma EvenOdds(maxLose: real, k: int)
    requires ValidOdds(k, k)
    ensures MaxWin(maxLose, k, k) == maxLose && Odds(k, k) == 1.0
  {
    DivSelf(k as real);
  }

  lemma DivSelf(r: real)
    requires r > 0.0
    ensures r / r == 1.0
  {
    var q := r / r;
    assert q * r == r;
    assert 1.0 * r == r;
    Cancel(q, 1.0, r);
  }

  /** A positive factor cancels. */
  lemma Cancel(a: real, b: real, c: real)
    requires c > 0.0 && a * c == b * c
    ensures a == b
  {
    assert (a - b) * c == 0.0;
    if a > b {
      ProductSign(a - b, c);
    } else if a < b {
      ProductSign(b - a, c);
    }
  }

  /** For fixed odds a larger stake means a larger maximum win. */
  lemma MaxWinIncreasing(a: real, b: real, numerator: int, denominator: int)
    requires ValidOdds(numerator, denominator) && a < b
    ensures MaxWin(a, numerator, denominator) < MaxWin(b, numerator, denominator)
  {
    var n, d := numerator as real, denominator as real;
    var x, y := MaxWin(a, numerator, denominator), MaxWin(b, numerator, denominator);
    assert (y - x) * n == (b - a) * d;
    ProductSign(b - a, d);
    PositiveFactor(y - x, n);
  }

  lemma ProductSign(p: real, q: real)
    requires p > 0.0 && q > 0.0
    ensures p * q > 0.0
  {
  }

  lemma PositiveFactor(p: real, n: real)
    requires n > 0.0 && p * n > 0.0
    ensures p > 0.0
  {
  }

  function NotMe(me: Option<UserId>): User -> bool {
    (u: User) => me.None? || u.id != me.value
  }

  /** The users offered as eligible: everyone but the session user, in list
      order; with no session user, everyone. */
  function EligibleChoices(users: seq<User>, me: Option<UserId>): (r: seq<User>)
    ensures me.Some? ==> forall u :: u in r ==> u.id != me.value
    ensures forall u :: u in users && (me.None? || u.id != me.value) ==> u in r
    ensures forall u :: u in r ==> u in users
    ensures me.None? ==> r == users
  {
    if me.None? then
      FilterKeepsAll(users, NotMe(me));
      Filter(users, NotMe(me))
    else Filter(users, NotMe(me))
  }
}
