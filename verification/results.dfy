/** The results panel: each prize name is classified into a tier by ordered
    substring tests, which picks its icon and header colour, and each prize
    gets one card listing its winners with their ranks. */
module Results {
  import opened Wire
  import opened Text

  datatype Tier = FirstTier | SecondTier | ThirdTier | OtherTier

  /** The English and Chinese markers of the three named tiers. */
  predicate MarksFirst(name: string) {
    Contains(name, "First Prize") || Contains(name, "一等奖")
  }

  predicate MarksSecond(name: string) {
    Contains(name, "Second Prize") || Contains(name, "二等奖")
  }

  predicate MarksThird(name: string) {
    Contains(name, "Third Prize") || Contains(name, "三等奖")
  }

  /** The tier the tests assign, the first matching test winning. */
  function Classify(name: string): (t: Tier)
    ensures t == FirstTier <==> MarksFirst(name)
    ensures t == SecondTier <==> !MarksFirst(name) && MarksSecond(name)
    ensures t == ThirdTier <==> !MarksFirst(name) && !MarksSecond(name) && MarksThird(name)
    ensures t == OtherTier <==> !MarksFirst(name) && !MarksSecond(name) && !MarksThird(name)
  {
    if MarksFirst(name) then FirstTier
    else if MarksSecond(name) then SecondTier
    else if MarksThird(name) then ThirdTier
    else OtherTier
  }

  datatype Icon = CrownIcon | MedalIcon | AwardIcon | TrophyIcon

  /** The prize icon, as the results cards and the home panel's prize list
      both choose it: the icon of the name's tier. */
  function PrizeIcon(name: string): (i: Icon)
    ensures i == IconOf(Classify(name))
  {
    if Contains(name, "First Prize") || Contains(name, "一等奖") then CrownIcon
    else if Contains(name, "Second Prize") || Contains(name, "二等奖") then MedalIcon
    else if Contains(name, "Third Prize") || Contains(name, "三等奖") then AwardIcon
    else TrophyIcon
  }

  /** The card header's gradient: the colour of the name's tier. */
  function PrizeColor(name: string): (c: string)
    ensures c == ColorOf(Classify(name))
  {
    if Contains(name, "First Prize") || Contains(name, "一等奖") then "from-yellow-400 to-yellow-600"
    else if Contains(name, "Second Prize") || Contains(name, "二等奖") then "from-gray-300 to-gray-500"
    else if Contains(name, "Third Prize") || Contains(name, "三等奖") then "from-amber-400 to-amber-600"
    else "from-purple-400 to-purple-600"
  }

  function IconOf(t: Tier): Icon {
    match t
    case FirstTier => CrownIcon
    case SecondTier => MedalIcon
    case ThirdTier => AwardIcon
    case OtherTier => TrophyIcon
  }

  function ColorOf(t: Tier): string {
    match t
    case FirstTier => "from-yellow-400 to-yellow-600"
    case SecondTier => "from-gray-300 to-gray-500"
    case ThirdTier => "from-amber-400 to-amber-600"
    case OtherTier => "from-purple-400 to-purple-600"
  }

  /** The icon and the colour each determine the tier back, so the two
      classifiers never disagree. */
  lemma IconAndColorAgree(name: string, other: string)
    ensures PrizeIcon(name) == PrizeIcon(other) <==> PrizeColor(name) == PrizeColor(other)
  {
  }

  /** A first-prize marker wins over any lower marker in the same name,
      e.g. "First Prize (was 二等奖)". */
  lemma FirstMarkerWins()
    ensures Classify("First Prize 二等奖") == FirstTier
  {
    assert Text.OccursAt("First Prize", "First Prize 二等奖", 0);
  }

  /** A name with no marker at all, such as "Grand Prize", gets the default
      trophy and purple header. */
  lemma UnmarkedIsDefault(name: string)
    requires !MarksFirst(name) && !MarksSecond(name) && !MarksThird(name)
    ensures PrizeIcon(name) == TrophyIcon && PrizeColor(name) == "from-purple-400 to-purple-600"
  {
  }

  // ---------------------------------------------------------------------
  // Cards

  /** One listed winner: its 1-based rank, display name and id. */
  datatype Row = Row(rank: nat, name: string, id: NodeId)

  /** A card's body: a placeholder for an empty list, else the rows. */
  datatype Body = NoWinners | Rows(rows: seq<Row>)

  /** One prize's card: header name, tier, the "N winners" count and body. */
  datatype Card = Card(prize: string, tier: Tier, count: nat, body: Body)

  /** The rows of a winner list, ranked from `first`. */
  function RankRows(ws: seq<Participant>, first: nat): (rows: seq<Row>)
    ensures |rows| == |ws|
    ensures forall i | 0 <= i < |ws| :: rows[i] == Row(first + i, ws[i].name, ws[i].id)
  {
    if ws == [] then [] else [Row(first, ws[0].name, ws[0].id)] + RankRows(ws[1..], first + 1)
  }

  /** The card of one prize. */
  function CardFor(a: Award): Card {
    Card(a.prize, Classify(a.prize), |a.winners|,
         if |a.winners| == 0 then NoWinners else Rows(RankRows(a.winners, 1)))
  }

  /** One card per prize, in the order of the results object. */
  function Cards(winners: seq<Award>): (cs: seq<Card>)
    ensures |cs| == |winners|
    ensures forall i | 0 <= i < |winners| :: cs[i] == CardFor(winners[i])
  {
    if winners == [] then [] else [CardFor(winners[0])] + Cards(winners[1..])
  }

  /** The participants a card lists, read back from its rows. */
  function ListedWinners(c: Card): seq<Participant> {
    match c.body
    case NoWinners => []
    case Rows(rows) => seq(|rows|, i requires 0 <= i < |rows| => Participant(rows[i].id, rows[i].name))
  }

  /** The cards show exactly the results: each card's prize, count and
      listed winners, read back, give that prize's entry; ranks count from 1
      in the given order; and the placeholder appears exactly for an empty
      list. */
  lemma CardsShowResults(winners: seq<Award>)
    ensures var cs := Cards(winners);
      forall i | 0 <= i < |winners| ::
        && Award(cs[i].prize, ListedWinners(cs[i])) == winners[i]
        && cs[i].count == |winners[i].winners|
        && (cs[i].body == NoWinners <==> winners[i].winners == [])
        && (cs[i].body.Rows? ==> forall j | 0 <= j < |cs[i].body.rows| :: cs[i].body.rows[j].rank == j + 1)
  {
    var cs := Cards(winners);
    forall i | 0 <= i < |winners|
      ensures Award(cs[i].prize, ListedWinners(cs[i])) == winners[i]
    {
      var ws := winners[i].winners;
      assert ListedWinners(cs[i]) == ws;
    }
  }
}
