/** Category eligibility for registering a pair in a tournament
    (`validateCategoryEligibility`). In a scoring, category-specific
    tournament a player may register only when their category is the
    tournament's or a lower one, categories being compared by display order
    (a lower order is a lower category). The categories table becomes the
    map `orders` from category id to display order. */
module CategoryEligibility {
  import opened Common

  datatype TournamentInfo = TournamentInfo(isPuntuable: bool, isCategorySpecific: bool, categoryId: Option<int>)

  datatype Player = Player(id: int, firstName: string, lastName: string, categoryId: Option<int>)

  /** `{ ok: true }` or `{ ok: false, error }`. */
  datatype Verdict = Allowed | Refused(error: string)

  function FullName(p: Player): string
  {
    p.firstName + " " + p.lastName
  }

  function UnverifiableCategory(p: Player): string
  {
    "No se pudo verificar la categoría de " + FullName(p) + "."
  }

  function CategoryTooHigh(p: Player): string
  {
    FullName(p) + " no se puede inscribir: su categoría es superior a la del torneo (solo se permiten misma categoría o inferior)."
  }

  /** Whether the tournament restricts registrations by category at all. */
  predicate Restricted(t: TournamentInfo)
  {
    t.isPuntuable && t.isCategorySpecific && t.categoryId.Some?
  }

  /** A player slot that passes the check: empty, a player without a
      category, or a player whose category is known and not above the
      tournament's. */
  predicate Eligible(player: Option<Player>, orders: map<int, int>, tournamentOrder: int)
  {
    match player
    case None => true
    case Some(p) =>
      match p.categoryId
      case None => true
      case Some(c) => c in orders && orders[c] <= tournamentOrder
  }

  /** Why a player is refused: their category has no known display order,
      or it ranks above the tournament's. */
  datatype Refusal = UnknownCategory(player: Player) | CategoryAbove(player: Player)

  function Message(f: Refusal): string
  {
    match f
    case UnknownCategory(p) => UnverifiableCategory(p)
    case CategoryAbove(p) => CategoryTooHigh(p)
  }

  /** One iteration of the loop over both players: the refusal this player
      causes, if any. */
  function CheckPlayer(player: Option<Player>, orders: map<int, int>, tournamentOrder: int): (r: Option<Refusal>)
    ensures r.None? <==> Eligible(player, orders, tournamentOrder)
    ensures r.Some? ==> player == Some(r.value.player)
    ensures r.Some? ==> (r.value.UnknownCategory? <==> player.value.categoryId.value !in orders)
  {
    match player
    case None => None
    case Some(p) =>
      match p.categoryId
      case None => None
      case Some(c) =>
        if c !in orders then Some(UnknownCategory(p))
        else if orders[c] > tournamentOrder then Some(CategoryAbove(p))
        else None
  }

  function ValidateCategoryEligibility(t: TournamentInfo, player1: Option<Player>, player2: Option<Player>, orders: map<int, int>): Verdict
  {
    if !Restricted(t) then Allowed
    else if t.categoryId.value !in orders then Allowed
    else
      var tournamentOrder := orders[t.categoryId.value];
      match CheckPlayer(player1, orders, tournamentOrder)
      case Some(f) => Refused(Message(f))
      case None =>
        match CheckPlayer(player2, orders, tournamentOrder)
        case Some(f) => Refused(Message(f))
        case None => Allowed
  }

  /** A tournament that does not score, is not category-specific or has no
      category accepts every pair, and so does one whose own category has no
      display order. */
  lemma UnrestrictedAllowsAll(t: TournamentInfo, player1: Option<Player>, player2: Option<Player>, orders: map<int, int>)
    requires !Restricted(t) || t.categoryId.value !in orders
    ensures ValidateCategoryEligibility(t, player1, player2, orders) == Allowed
  {
  }

  /** Otherwise a pair is accepted exactly when both slots are eligible,
      that is, when no present player with a category has an unknown
      category or one ranked above the tournament's. */
  lemma AllowedIffBothEligible(t: TournamentInfo, player1: Option<Player>, player2: Option<Player>, orders: map<int, int>)
    requires Restricted(t) && t.categoryId.value in orders
    ensures var tournamentOrder := orders[t.categoryId.value];
      (ValidateCategoryEligibility(t, player1, player2, orders) == Allowed <==>
       Eligible(player1, orders, tournamentOrder) && Eligible(player2, orders, tournamentOrder))
  {
    var tournamentOrder := orders[t.categoryId.value];
    var c1 := CheckPlayer(player1, orders, tournamentOrder);
    var c2 := CheckPlayer(player2, orders, tournamentOrder);
    assert c1.None? <==> Eligible(player1, orders, tournamentOrder);
    assert c2.None? <==> Eligible(player2, orders, tournamentOrder);
  }

  /** The first player is checked first: when both fail, the refusal names
      the first; a refusal with an eligible first player names the second
      (`CheckPlayer` says which of the two messages a player gets). */
  lemma FirstFailureReported(t: TournamentInfo, player1: Option<Player>, player2: Option<Player>, orders: map<int, int>)
    requires Restricted(t) && t.categoryId.value in orders
    ensures var tournamentOrder := orders[t.categoryId.value];
      var v := ValidateCategoryEligibility(t, player1, player2, orders);
      && (!Eligible(player1, orders, tournamentOrder) ==>
            v == Refused(Message(CheckPlayer(player1, orders, tournamentOrder).value)))
      && (Eligible(player1, orders, tournamentOrder) && !Eligible(player2, orders, tournamentOrder) ==>
            v == Refused(Message(CheckPlayer(player2, orders, tournamentOrder).value)))
  {
    var tournamentOrder := orders[t.categoryId.value];
    var c1 := CheckPlayer(player1, orders, tournamentOrder);
    var c2 := CheckPlayer(player2, orders, tournamentOrder);
    assert c1.None? <==> Eligible(player1, orders, tournamentOrder);
    assert c2.None? <==> Eligible(player2, orders, tournamentOrder);
  }

  /** A missing player and a player without a category are never refused,
      and a player at the tournament's own category or below passes. */
  lemma SameOrLowerCategoryPasses(player: Player, orders: map<int, int>, tournamentOrder: int)
    requires player.categoryId.None? || (player.categoryId.value in orders && orders[player.categoryId.value] <= tournamentOrder)
    ensures CheckPlayer(Some(player), orders, tournamentOrder) == None
    ensures CheckPlayer(None, orders, tournamentOrder) == None
  {
  }
}
