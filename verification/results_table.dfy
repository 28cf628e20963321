/** The summary table under the carousel (src/components/results/
    ResultsTable.tsx): one row per category naming its winner, or its first
    nominee when nobody is flagged, or nobody. */
module ResultsTable {
  import opened Wrappers
  import opened Domain
  import opened ResultsData
  import opened Counting
  import WinnerCarousel

  datatype SummaryRow = SummaryRow(category: string, shown: string, votes: nat, percent: real)

  /** `nominees.find((n) => n.isWinner) ?? nominees[0] ?? null`. */
  function Featured(c: ResultsCategory): (r: Option<ResultsNominee>)
    ensures (exists i :: 0 <= i < |c.nominees| && c.nominees[i].isWinner) ==>
      r == WinnerCarousel.GetWinner(c)
    ensures (forall i :: 0 <= i < |c.nominees| ==> !c.nominees[i].isWinner) && |c.nominees| > 0 ==>
      r == Some(c.nominees[0])
    ensures r.None? <==> |c.nominees| == 0
  {
    match WinnerCarousel.GetWinner(c)
    case Some(w) => Some(w)
    case None => if |c.nominees| > 0 then Some(c.nominees[0]) else None
  }

  function Row(c: ResultsCategory): (r: SummaryRow)
    ensures r.category == c.name
    ensures |c.nominees| == 0 ==> r == SummaryRow(c.name, "Sem votos", 0, 0.0)
    ensures |c.nominees| > 0 ==>
      (exists i :: 0 <= i < |c.nominees| &&
        r == SummaryRow(c.name, c.nominees[i].name, c.nominees[i].totalVotes, c.nominees[i].percent))
    ensures Featured(c).Some? ==>
      var n := Featured(c).value;
      r == SummaryRow(c.name, n.name, n.totalVotes, n.percent)
  {
    match Featured(c)
    case Some(n) => SummaryRow(c.name, n.name, n.totalVotes, n.percent)
    case None => SummaryRow(c.name, "Sem votos", 0, 0.0)
  }

  /** Exactly one row per category, in input order. */
  function Rows(cats: seq<ResultsCategory>): (r: seq<SummaryRow>)
    ensures |r| == |cats|
    ensures forall i :: 0 <= i < |cats| ==> r[i] == Row(cats[i])
  {
    seq(|cats|, i requires 0 <= i < |cats| => Row(cats[i]))
  }

  /** On a tabulated category whose nominees received a vote, the row shows a
      nominee with the most votes; with no votes at all it shows the first
      nominee with 0 votes. */
  lemma RowShowsTopCount(cat: Category, noms: seq<Nominee>, voteIds: seq<string>)
    requires |noms| > 0
    ensures var c := TabulateCategory(cat, noms, voteIds);
      forall j :: 0 <= j < |noms| ==> c.nominees[j].totalVotes <= Row(c).votes
  {
    var c := TabulateCategory(cat, noms, voteIds);
    if exists i :: 0 <= i < |noms| && c.nominees[i].isWinner {
      var w := WinnerCarousel.GetWinner(c);
      var i :| 0 <= i < |c.nominees| && c.nominees[i] == w.value && w.value.isWinner;
      assert Row(c).votes == c.nominees[i].totalVotes;
    } else {
      assert Row(c).votes == c.nominees[0].totalVotes;
      forall j | 0 <= j < |noms| ensures c.nominees[j].totalVotes == 0 {
        if noms[j].id in voteIds {
          SomeVoteSomeWinner(cat, noms, voteIds, j);
          assert false;
        }
        CountPositive(voteIds, noms[j].id);
      }
    }
  }
}
