/**
  * components/teams/TeamDetailsTable.jsx: a team's lineup as five table
  * rows, positions shortened to their usual abbreviations, and the
  * per-player counter totals that the averages are computed from.
  */
module TeamDetails {

  const Lineup := 5
  const NoPlayersInfo := "This team has no players yet."

  /** The abbreviations of the five positions a player can have. */
  const Abbreviations: map<string, string> :=
    map["Point Guard" := "PG", "Shooting Guard" := "SG", "Small Forward" := "SF",
        "Power Forward" := "PF", "Center" := "C"]

  /** `abbreviatePosition`: a known position is shortened, anything else is shown as it is. */
  function AbbreviatePosition(position: string): (r: string)
    ensures position in Abbreviations ==> r == Abbreviations[position]
    ensures position !in Abbreviations ==> r == position
  {
    if position == "Point Guard" then "PG"
    else if position == "Shooting Guard" then "SG"
    else if position == "Small Forward" then "SF"
    else if position == "Power Forward" then "PF"
    else if position == "Center" then "C"
    else position
  }

  /** One body row: a player, or the "Add a player" link. */
  datatype Slot<P> = Filled(player: P) | AddPlayerPlaceholder

  /** `Array.from({ length: 5 }).map((_, index) => players[index] ? ... : ...)`. */
  function Slots<P>(players: seq<P>): (r: seq<Slot<P>>)
    ensures |r| == Lineup
    ensures forall i :: 0 <= i < Lineup ==> (r[i].Filled? <==> i < |players|)
    ensures forall i :: 0 <= i < Lineup && i < |players| ==> r[i] == Filled(players[i])
  {
    seq(Lineup, i requires 0 <= i < Lineup => if i < |players| then Filled(players[i]) else AddPlayerPlaceholder)
  }

  /** The players in filled slots, top to bottom. */
  function FilledPlayers<P>(slots: seq<Slot<P>>): seq<P>
    decreases |slots|
  {
    if slots == [] then []
    else (if slots[0].Filled? then [slots[0].player] else []) + FilledPlayers(slots[1..])
  }

  lemma {:induction false} FilledPlayersOfPrefix<P>(players: seq<P>, slots: seq<Slot<P>>, from: nat)
    requires from <= |slots|
    requires forall i :: 0 <= i < |slots| ==> (slots[i].Filled? <==> i < |players|)
    requires forall i :: 0 <= i < |slots| && i < |players| ==> slots[i] == Filled(players[i])
    ensures from <= |players| ==> FilledPlayers(slots[from..]) == players[from..if |players| < |slots| then |players| else |slots|]
    ensures from > |players| ==> FilledPlayers(slots[from..]) == []
    decreases |slots| - from
  {
    if from < |slots| {
      FilledPlayersOfPrefix(players, slots, from + 1);
      assert slots[from..][1..] == slots[from + 1..];
    }
  }

  /**
    * The five rows show the first five players in order, followed by one
    * placeholder per free place; a lineup of at most five is shown in full.
    */
  lemma SlotsShowLineup<P>(players: seq<P>)
    ensures FilledPlayers(Slots(players)) == players[..if |players| < Lineup then |players| else Lineup]
    ensures |players| <= Lineup ==> FilledPlayers(Slots(players)) == players
  {
    FilledPlayersOfPrefix(players, Slots(players), 0);
    assert Slots(players)[0..] == Slots(players);
  }

  datatype DetailsView<P> = InfoMessage(text: string) | Table(rows: seq<Slot<P>>)

  /** An empty lineup shows the info message instead of the table. */
  function Render<P>(players: seq<P>): (r: DetailsView<P>)
    ensures r.InfoMessage? <==> |players| == 0
    ensures r.InfoMessage? ==> r.text == NoPlayersInfo
    ensures r.Table? ==> r.rows == Slots(players)
  {
    if |players| == 0 then InfoMessage(NoPlayersInfo) else Table(Slots(players))
  }

  /** One game's counters, and also their running totals. */
  datatype Counters = Counters(points: int, rebounds: int, assists: int, steals: int, turnovers: int)

  const Zero := Counters(0, 0, 0, 0, 0)

  /** The sum of one counter over the games. */
  function Sum(games: seq<Counters>, counter: Counters -> int): int
    decreases |games|
  {
    if games == [] then 0 else counter(games[0]) + Sum(games[1..], counter)
  }

  lemma {:induction false} SumSnoc(games: seq<Counters>, game: Counters, counter: Counters -> int)
    ensures Sum(games + [game], counter) == Sum(games, counter) + counter(game)
    decreases |games|
  {
    if games == [] {
      assert [] + [game] == [game];
    } else {
      assert (games + [game])[1..] == games[1..] + [game];
      SumSnoc(games[1..], game, counter);
    }
  }

  ghost predicate TotalsOf(acc: Counters, games: seq<Counters>) {
    && acc.points == Sum(games, (c: Counters) => c.points)
    && acc.rebounds == Sum(games, (c: Counters) => c.rebounds)
    && acc.assists == Sum(games, (c: Counters) => c.assists)
    && acc.steals == Sum(games, (c: Counters) => c.steals)
    && acc.turnovers == Sum(games, (c: Counters) => c.turnovers)
  }

  /**
    * The `stats.reduce` in `calculateAveragePlayerStats`: each of the five
    * totals is the sum of that counter over all the games.
    */
  method GameTotals(games: seq<Counters>) returns (acc: Counters)
    ensures acc.points == Sum(games, (c: Counters) => c.points)
    ensures acc.rebounds == Sum(games, (c: Counters) => c.rebounds)
    ensures acc.assists == Sum(games, (c: Counters) => c.assists)
    ensures acc.steals == Sum(games, (c: Counters) => c.steals)
    ensures acc.turnovers == Sum(games, (c: Counters) => c.turnovers)
  {
    acc := Zero;
    var i := 0;
    while i < |games|
      invariant 0 <= i <= |games|
      invariant TotalsOf(acc, games[..i])
      decreases |games| - i
    {
      var game := games[i];
      assert games[..i + 1] == games[..i] + [game];
      SumSnoc(games[..i], game, (c: Counters) => c.points);
      SumSnoc(games[..i], game, (c: Counters) => c.rebounds);
      SumSnoc(games[..i], game, (c: Counters) => c.assists);
      SumSnoc(games[..i], game, (c: Counters) => c.steals);
      SumSnoc(games[..i], game, (c: Counters) => c.turnovers);
      acc := Counters(acc.points + game.points, acc.rebounds + game.rebounds, acc.assists + game.assists,
                      acc.steals + game.steals, acc.turnovers + game.turnovers);
      i := i + 1;
    }
    assert games[..i] == games;
  }
}
