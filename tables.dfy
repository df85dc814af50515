/**
 * The tables page: the colour class of each standings row, the legend, the
 * top-scorer and top-assist leaderboards and the nationality flags.
 */
module Tables {
  import opened Optional
  import opened JsString
  import Sequences

  const ChampionsLeague := "champions-league"
  const LeaderboardSize := 10

  datatype PositionClass = First | Champions | Europa | Relegation | Unmarked

  function ClassName(c: PositionClass): string {
    match c
    case First => "position-first"
    case Champions => "position-champions"
    case Europa => "position-europa"
    case Relegation => "position-relegation"
    case Unmarked => ""
  }

  /**
   * The class of the row at `index` in a table of `count` rows. In the
   * Champions League the top 8, the next 16 and the rest are marked; in
   * other leagues the leader, places 2-4, places 5-6 and the last three,
   * the earlier rule winning where they overlap on a short table.
   */
  function PositionClassOf(league: string, index: nat, count: nat): (c: PositionClass)
    ensures league == ChampionsLeague ==>
              && (c == Champions <==> index < 8)
              && (c == Europa <==> 8 <= index < 24)
              && (c == Relegation <==> index >= 24)
    ensures league != ChampionsLeague ==>
              && (c == First <==> index == 0)
              && (c == Champions <==> 1 <= index < 4)
              && (c == Europa <==> 4 <= index < 6)
              && (c == Relegation <==> 6 <= index && index >= count - 3)
              && (c == Unmarked <==> 6 <= index < count - 3)
  {
    if league == ChampionsLeague then
      if index < 8 then Champions else if index < 24 then Europa else Relegation
    else if index == 0 then First
    else if index < 4 then Champions
    else if index < 6 then Europa
    else if index >= count - 3 then Relegation
    else Unmarked
  }

  /** Outside the Champions League, a table of at least nine rows marks exactly its last three as relegated. */
  lemma RelegationIsLastThree(league: string, count: nat)
    requires league != ChampionsLeague && count >= 9
    ensures forall i: nat :: i < count ==> (PositionClassOf(league, i, count) == Relegation <==> i >= count - 3)
  {
  }

  /** A table of at most six rows marks nobody as relegated outside the Champions League. */
  lemma ShortTableNoRelegation(league: string, count: nat)
    requires league != ChampionsLeague && count <= 6
    ensures forall i: nat :: i < count ==> PositionClassOf(league, i, count) != Relegation
  {
  }

  /** The three legend texts: qualification, second tier, bottom. */
  function Legend(league: string): (r: (string, string, string))
    ensures league == ChampionsLeague ==>
              r == ("Round of 16 (1st - 8th)", "Knockout Playoffs (9th - 24th)", "Eliminated (25th - 36th)")
    ensures league != ChampionsLeague ==> r == ("Champions League", "Europa League", "Relegation")
  {
    if league == ChampionsLeague then
      ("Round of 16 (1st - 8th)", "Knockout Playoffs (9th - 24th)", "Eliminated (25th - 36th)")
    else ("Champions League", "Europa League", "Relegation")
  }

  /** The tables page: the selected league and the legend shown. */
  class TablesPage {
    var currentLeague: string
    var legend: (string, string, string)

    constructor ()
      ensures currentLeague == "premier-league" && legend == Legend("premier-league")
    {
      currentLeague := "premier-league";
      legend := Legend("premier-league");
    }

    /** `selectLeague`: the league is recorded before its standings are requested, and the legend follows it. */
    method SelectLeague(league: string) returns (requested: string)
      modifies this
      ensures currentLeague == league && legend == Legend(league)
      ensures requested == league
    {
      currentLeague := league;
      legend := Legend(league);
      requested := league;
    }

    /** The classes of a table of `count` rows under the recorded league. */
    function RowClasses(count: nat): (r: seq<PositionClass>)
      reads this
      ensures |r| == count
      ensures forall i :: 0 <= i < count ==> r[i] == PositionClassOf(currentLeague, i, count)
    {
      var league := currentLeague;
      seq(count, i requires 0 <= i < count => PositionClassOf(league, i, count))
    }
  }

  // ------------------------------------------------------------------ leaderboards

  datatype Scorer = Scorer(name: string, nationality: Option<string>, goals: int, assists: Option<int>)

  predicate Scored(s: Scorer) {
    s.goals > 0
  }

  /** `s.assists && s.assists > 0`: a missing assist count does not count. */
  predicate Assisted(s: Scorer) {
    s.assists.Some? && s.assists.value > 0
  }

  function Assists(s: Scorer): int {
    s.assists.GetOr(0)
  }

  /** The players with goals, in the order given, at most ten. */
  function TopScorers(scorers: seq<Scorer>): (r: seq<Scorer>)
    ensures |r| <= LeaderboardSize
    ensures forall i :: 0 <= i < |r| ==> r[i] in scorers && Scored(r[i])
    ensures |r| < LeaderboardSize ==> forall i :: 0 <= i < |scorers| && Scored(scorers[i]) ==> scorers[i] in r
    ensures var withGoals := Sequences.Filter(scorers, Scored);
            |r| == (if |withGoals| < LeaderboardSize then |withGoals| else LeaderboardSize)
            && r == withGoals[..|r|]
  {
    var withGoals := Sequences.Filter(scorers, Scored);
    Sequences.FilterMembers(scorers, Scored);
    Sequences.Take(withGoals, LeaderboardSize)
  }

  /**
   * The scorers board is the first ten players with goals in feed order:
   * it takes players at increasing feed positions, only players with
   * goals, and leaves a player with goals out only when ten earlier ones
   * fill it.
   */
  lemma TopScorersInOrder(scorers: seq<Scorer>) returns (pos: seq<nat>)
    ensures |pos| == |TopScorers(scorers)|
    ensures forall k :: 0 <= k < |pos| ==> pos[k] < |scorers| && TopScorers(scorers)[k] == scorers[pos[k]]
    ensures forall k, l :: 0 <= k < l < |pos| ==> pos[k] < pos[l]
    ensures forall i :: 0 <= i < |scorers| && !Scored(scorers[i]) ==> i !in pos
    ensures forall i :: 0 <= i < |scorers| && Scored(scorers[i]) && i !in pos ==>
              |pos| == LeaderboardSize && pos[LeaderboardSize - 1] < i
  {
    var all := Sequences.FilterIndices(scorers, Scored);
    var r := TopScorers(scorers);
    pos := all[..|r|];
    forall i | 0 <= i < |scorers| && !Scored(scorers[i]) ensures i !in pos {
      assert i !in all;
    }
    forall i | 0 <= i < |scorers| && Scored(scorers[i]) && i !in pos
      ensures |pos| == LeaderboardSize && pos[LeaderboardSize - 1] < i
    {
      assert i in all;
      var m :| 0 <= m < |all| && all[m] == i;
      assert m >= |pos|;
    }
  }

  /** The players with assists, most assists first (ties keep their order), at most ten. */
  function TopAssists(scorers: seq<Scorer>): (r: seq<Scorer>)
    ensures |r| <= LeaderboardSize
    ensures forall i :: 0 <= i < |r| ==> r[i] in scorers && Assisted(r[i])
    ensures forall i, j :: 0 <= i < j < |r| ==> Assists(r[i]) >= Assists(r[j])
    ensures |r| < LeaderboardSize ==> forall i :: 0 <= i < |scorers| && Assisted(scorers[i]) ==> scorers[i] in r
    ensures multiset(r) <= multiset(Sequences.Filter(scorers, Assisted))
  {
    var providers := Sequences.Filter(scorers, Assisted);
    Sequences.FilterMembers(scorers, Assisted);
    var sorted := Sequences.SortDesc(providers, Assists);
    Sequences.SortDescSorted(providers, Assists);
    Sequences.SortDescMembers(providers, Assists);
    Sequences.TakeSubMultiset(sorted, LeaderboardSize);
    Sequences.Take(sorted, LeaderboardSize)
  }

  /** A player left off the assists board has no more assists than anyone on it. */
  lemma TopAssistsAreTop(scorers: seq<Scorer>, x: Scorer)
    requires x in scorers && Assisted(x) && x !in TopAssists(scorers)
    ensures forall i :: 0 <= i < |TopAssists(scorers)| ==> Assists(x) <= Assists(TopAssists(scorers)[i])
  {
    var providers := Sequences.Filter(scorers, Assisted);
    Sequences.FilterMembers(scorers, Assisted);
    var sorted := Sequences.SortDesc(providers, Assists);
    var r := TopAssists(scorers);
    Sequences.SortDescSorted(providers, Assists);
    Sequences.SortDescMembers(providers, Assists);
    var k :| 0 <= k < |scorers| && scorers[k] == x;
    var m :| 0 <= m < |providers| && providers[m] == x;
    var j :| 0 <= j < |sorted| && sorted[j] == x;
    forall i | 0 <= i < |r| ensures Assists(x) <= Assists(r[i]) {
      assert r[i] == sorted[i];
    }
  }

  /** Players with equal assists appear in the order the feed gave them. */
  lemma TopAssistsStable(scorers: seq<Scorer>, k: int)
    ensures var sorted := Sequences.SortDesc(Sequences.Filter(scorers, Assisted), Assists);
            Sequences.WithKey(sorted, Assists, k) == Sequences.WithKey(Sequences.Filter(scorers, Assisted), Assists, k)
  {
    Sequences.SortDescStable(Sequences.Filter(scorers, Assisted), Assists, k);
  }

  /** On the board itself, players with equal assists appear in feed order, as a prefix of all such players. */
  lemma TopAssistsBoardStable(scorers: seq<Scorer>, k: int)
    ensures Sequences.WithKey(TopAssists(scorers), Assists, k)
         <= Sequences.WithKey(Sequences.Filter(scorers, Assisted), Assists, k)
  {
    var providers := Sequences.Filter(scorers, Assisted);
    var sorted := Sequences.SortDesc(providers, Assists);
    Sequences.WithKeyTake(sorted, Assists, k, LeaderboardSize);
    Sequences.SortDescStable(providers, Assists, k);
  }

  // ------------------------------------------------------------------ flags

  const CountryCodes: map<string, string> :=
    map[
      "England" := "gb-eng",
      "Spain" := "es",
      "Germany" := "de",
      "France" := "fr",
      "Italy" := "it",
      "Portugal" := "pt",
      "Brazil" := "br",
      "Argentina" := "ar",
      "Netherlands" := "nl",
      "Belgium" := "be",
      "Croatia" := "hr",
      "Denmark" := "dk",
      "Sweden" := "se",
      "Norway" := "no",
      "Poland" := "pl",
      "Switzerland" := "ch",
      "Austria" := "at",
      "Czech Republic" := "cz",
      "Serbia" := "rs",
      "Ukraine" := "ua",
      "Turkey" := "tr",
      "Greece" := "gr",
      "Romania" := "ro",
      "Morocco" := "ma",
      "Senegal" := "sn",
      "Nigeria" := "ng",
      "Ghana" := "gh",
      "Ivory Coast" := "ci",
      "Cameroon" := "cm",
      "Egypt" := "eg",
      "Algeria" := "dz",
      "South Korea" := "kr",
      "Japan" := "jp",
      "Australia" := "au",
      "United States" := "us",
      "Mexico" := "mx",
      "Colombia" := "co",
      "Uruguay" := "uy",
      "Chile" := "cl",
      "Ecuador" := "ec",
      "Peru" := "pe",
      "Venezuela" := "ve",
      "Scotland" := "gb-sct",
      "Wales" := "gb-wls",
      "Northern Ireland" := "gb-nir",
      "Republic of Ireland" := "ie",
      "Albania" := "al",
      "Bosnia-Herzegovina" := "ba",
      "Bulgaria" := "bg",
      "Finland" := "fi",
      "Hungary" := "hu",
      "Iceland" := "is",
      "North Macedonia" := "mk",
      "Slovakia" := "sk",
      "Slovenia" := "si"
    ]

  /**
   * `countryMap[nationality] || null`: the listed code, or `null` (`None`)
   * for an unlisted nationality. No listed code is empty, so `||` only
   * replaces a missing entry.
   */
  function CountryCode(nationality: string): (r: Option<string>)
    ensures nationality in CountryCodes ==> r == Some(CountryCodes[nationality])
    ensures nationality !in CountryCodes ==> r == None
  {
    if nationality in CountryCodes then Some(CountryCodes[nationality]) else None
  }

  /** A player's nationality, `Unknown` when missing or empty. */
  function Nationality(s: Scorer): string {
    if s.nationality.Some? && s.nationality.value != "" then s.nationality.value else "Unknown"
  }

  /** The flag image address: empty when the nationality has no code. */
  function FlagUrl(nationality: string): (r: string)
    ensures r == "" <==> CountryCode(nationality).None?
    ensures CountryCode(nationality).Some? ==>
              r == "https://flagcdn.com/w20/" + CountryCodes[nationality] + ".png"
  {
    match CountryCode(nationality)
    case Some(code) => "https://flagcdn.com/w20/" + code + ".png"
    case None => ""
  }

  datatype LeaderRow = LeaderRow(rank: nat, name: string, flag: string, tally: int)

  /** The rows of a leaderboard: rank is position + 1, each with its flag and tally. */
  function Leaderboard(players: seq<Scorer>, tally: Scorer -> int): (r: seq<LeaderRow>)
    ensures |r| == |players|
    ensures forall i :: 0 <= i < |r| ==>
              r[i].rank == i + 1 && r[i].name == players[i].name
              && r[i].flag == FlagUrl(Nationality(players[i])) && r[i].tally == tally(players[i])
  {
    seq(|players|, i requires 0 <= i < |players| =>
      LeaderRow(i + 1, players[i].name, FlagUrl(Nationality(players[i])), tally(players[i])))
  }
}
