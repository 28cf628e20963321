/** The admin results tab (src/modules/admin/ResultsTab.tsx, `loadResults`):
    a two-level vote count (category, then nominee), one row per listed
    nominee with its share of its category's votes, rows grouped by category
    and each group sorted by votes, most first. */
module AdminResults {
  import opened Wrappers
  import opened Domain
  import opened Counting
  import opened Sorting
  import ResultsData
  import VotePage

  /** The two columns `loadResults` reads from each vote row. */
  datatype VotePair = VotePair(categoryId: string, nomineeId: string)

  /** One property of `voteCounts`: a category id and its nominee record. */
  datatype Group = Group(categoryId: string, counts: seq<Entry>)

  /** `voteCounts[c] ?? {}`. */
  function Inner(g: seq<Group>, c: string): seq<Entry>
  {
    if g == [] then []
    else if g[0].categoryId == c then g[0].counts
    else Inner(g[1..], c)
  }

  /** The effect of visiting one vote: create the category's record when it
      is missing, then bump the nominee inside it. */
  function BumpPair(g: seq<Group>, v: VotePair): seq<Group>
  {
    if g == [] then [Group(v.categoryId, Bump([], v.nomineeId))]
    else if g[0].categoryId == v.categoryId then [Group(v.categoryId, Bump(g[0].counts, v.nomineeId))] + g[1..]
    else [g[0]] + BumpPair(g[1..], v)
  }

  /** `voteCounts` after visiting the votes left to right. */
  function NestedTally(votes: seq<VotePair>): seq<Group>
  {
    if votes == [] then [] else BumpPair(NestedTally(votes[..|votes| - 1]), votes[|votes| - 1])
  }

  /** Reference definition: how many vote rows carry this category and nominee. */
  function PairCount(votes: seq<VotePair>, c: string, n: string): nat
  {
    if votes == [] then 0
    else PairCount(votes[..|votes| - 1], c, n) + (if votes[|votes| - 1] == VotePair(c, n) then 1 else 0)
  }

  /** The category column of every vote row. */
  function VoteCategories(votes: seq<VotePair>): (r: seq<string>)
    ensures |r| == |votes|
    ensures forall i :: 0 <= i < |votes| ==> r[i] == votes[i].categoryId
  {
    if votes == [] then [] else VoteCategories(votes[..|votes| - 1]) + [votes[|votes| - 1].categoryId]
  }

  /** The nominee column of the vote rows of category `c`, in order. */
  function NomineesVotedIn(votes: seq<VotePair>, c: string): seq<string>
  {
    if votes == [] then []
    else NomineesVotedIn(votes[..|votes| - 1], c) + (if votes[|votes| - 1].categoryId == c then [votes[|votes| - 1].nomineeId] else [])
  }

  lemma {:induction false} InnerBump(g: seq<Group>, v: VotePair, c: string)
    ensures Inner(BumpPair(g, v), c) == if v.categoryId == c then Bump(Inner(g, c), v.nomineeId) else Inner(g, c)
    decreases |g|
  {
    if g != [] && g[0].categoryId != v.categoryId {
      InnerBump(g[1..], v, c);
    }
  }

  lemma TallySnoc(xs: seq<string>, x: string)
    ensures Tally(xs + [x]) == Bump(Tally(xs), x)
  {
    assert (xs + [x])[..|xs|] == xs;
  }

  /** The nominee record of category `c` is the plain tally of the nominees
      voted for in that category. */
  lemma {:induction false} NestedTallyInner(votes: seq<VotePair>, c: string)
    ensures Inner(NestedTally(votes), c) == Tally(NomineesVotedIn(votes, c))
    decreases |votes|
  {
    if votes != [] {
      var p, v := votes[..|votes| - 1], votes[|votes| - 1];
      NestedTallyInner(p, c);
      assert NestedTally(votes) == BumpPair(NestedTally(p), v);
      InnerBump(NestedTally(p), v, c);
      if v.categoryId == c {
        TallySnoc(NomineesVotedIn(p, c), v.nomineeId);
      } else {
        calc {
          NomineesVotedIn(votes, c);
          NomineesVotedIn(p, c) + [];
          NomineesVotedIn(p, c);
        }
      }
    }
  }

  lemma {:induction false} NomineesVotedInCount(votes: seq<VotePair>, c: string, n: string)
    ensures Count(NomineesVotedIn(votes, c), n) == PairCount(votes, c, n)
    decreases |votes|
  {
    if votes != [] {
      var p, v := votes[..|votes| - 1], votes[|votes| - 1];
      NomineesVotedInCount(p, c, n);
      var xs := NomineesVotedIn(p, c);
      if v.categoryId == c {
        assert (xs + [v.nomineeId])[..|xs|] == xs;
      } else {
        assert xs + [] == xs;
      }
    }
  }

  lemma {:induction false} NomineesVotedInSize(votes: seq<VotePair>, c: string)
    ensures |NomineesVotedIn(votes, c)| == Count(VoteCategories(votes), c)
    decreases |votes|
  {
    if votes != [] {
      var p := votes[..|votes| - 1];
      NomineesVotedInSize(p, c);
      assert VoteCategories(votes)[..|p|] == VoteCategories(p);
    }
  }

  /** `voteCounts[c][n] ?? 0` is the number of vote rows with that category
      and nominee. */
  lemma CellCount(votes: seq<VotePair>, c: string, n: string)
    ensures Lookup(Inner(NestedTally(votes), c), n) == PairCount(votes, c, n)
  {
    NestedTallyInner(votes, c);
    TallyCounts(NomineesVotedIn(votes, c), n);
    NomineesVotedInCount(votes, c, n);
  }

  /** A category's total is every vote recorded under it, whether or not the
      nominee it names is listed in that category. */
  lemma CategoryTotal(votes: seq<VotePair>, c: string)
    ensures Total(Inner(NestedTally(votes), c)) == Count(VoteCategories(votes), c)
  {
    NestedTallyInner(votes, c);
    TallyTotal(NomineesVotedIn(votes, c));
    NomineesVotedInSize(votes, c);
  }

  datatype ResultRow = ResultRow(category: string, nominee: string, votes: nat, percent: real)

  function RowVotes(r: ResultRow): int
  {
    r.votes
  }

  /** The rows of one category before sorting: one per nominee of the
      category, in nominee order. */
  function UnsortedRows(cat: Category, noms: seq<Nominee>, votes: seq<VotePair>): (r: seq<ResultRow>)
    ensures |r| == |InCategory(noms, cat.id)|
    ensures forall i :: 0 <= i < |r| ==>
      var n := InCategory(noms, cat.id)[i];
      && r[i].category == cat.name
      && r[i].nominee == n.name
      && r[i].votes == PairCount(votes, cat.id, n.id)
      && r[i].percent == Percent(r[i].votes, Count(VoteCategories(votes), cat.id))
  {
    var counts := Inner(NestedTally(votes), cat.id);
    var ns := InCategory(noms, cat.id);
    CategoryTotal(votes, cat.id);
    forall n: Nominee ensures Lookup(counts, n.id) == PairCount(votes, cat.id, n.id) {
      CellCount(votes, cat.id, n.id);
    }
    seq(|ns|, i requires 0 <= i < |ns| =>
      var v := Lookup(counts, ns[i].id);
      ResultRow(cat.name, ns[i].name, v, Percent(v, Total(counts))))
  }

  /** The rows of one category as pushed into the table: sorted by votes,
      most first, ties in nominee order. */
  function CategoryRows(cat: Category, noms: seq<Nominee>, votes: seq<VotePair>): seq<ResultRow>
  {
    SortDesc(UnsortedRows(cat, noms, votes), RowVotes)
  }

  /** A category's group holds exactly its nominees' rows, most voted first,
      and nominees with equal votes keep their order. */
  lemma CategoryRowsSpec(cat: Category, noms: seq<Nominee>, votes: seq<VotePair>)
    ensures var r := CategoryRows(cat, noms, votes);
      && |r| == |InCategory(noms, cat.id)|
      && multiset(r) == multiset(UnsortedRows(cat, noms, votes))
      && (forall i, j :: 0 <= i < j < |r| ==> r[i].votes >= r[j].votes)
      && (forall k :: WithKey(r, RowVotes, k) == WithKey(UnsortedRows(cat, noms, votes), RowVotes, k))
  {
    var u := UnsortedRows(cat, noms, votes);
    var r := CategoryRows(cat, noms, votes);
    assert SortedDesc(r, RowVotes);
    forall i, j | 0 <= i < j < |r| ensures r[i].votes >= r[j].votes {
      assert RowVotes(r[i]) >= RowVotes(r[j]);
    }
    forall k ensures WithKey(r, RowVotes, k) == WithKey(u, RowVotes, k) {
      SortDescStable(u, RowVotes, k);
    }
  }

  /** The table: each category's group, in category order. */
  function TableRows(cats: seq<Category>, noms: seq<Nominee>, votes: seq<VotePair>): (r: seq<ResultRow>)
    ensures |r| == SumCounts(VotePage.CategoryIdsOf(noms), CategoryIds(cats))
  {
    if cats == [] then []
    else
      var r := TableRows(cats[..|cats| - 1], noms, votes) + CategoryRows(cats[|cats| - 1], noms, votes);
      VotePage.InCategorySize(noms, cats[|cats| - 1].id);
      assert CategoryIds(cats)[..|cats| - 1] == CategoryIds(cats[..|cats| - 1]);
      r
  }

  /** When the categories are distinct and every nominee belongs to one of
      them (the nominee query asks for exactly those), there is one row per
      nominee. */
  lemma OneRowPerNominee(cats: seq<Category>, noms: seq<Nominee>, votes: seq<VotePair>)
    requires Distinct(CategoryIds(cats))
    requires forall i :: 0 <= i < |noms| ==> noms[i].categoryId in CategoryIds(cats)
    ensures |TableRows(cats, noms, votes)| == |noms|
  {
    var ids := VotePage.CategoryIdsOf(noms);
    assert forall i :: 0 <= i < |ids| ==> ids[i] in CategoryIds(cats);
    ListedCountsBound(ids, CategoryIds(cats));
  }

  /** The admin table and the public results agree: for each nominee the
      vote count and percentage are those the public aggregator computes
      from the nominee ids voted in that category. */
  lemma AgreesWithPublic(cat: Category, noms: seq<Nominee>, votes: seq<VotePair>)
    ensures var ns := InCategory(noms, cat.id);
      var pub := ResultsData.TabulateCategory(cat, ns, NomineesVotedIn(votes, cat.id));
      var rows := UnsortedRows(cat, noms, votes);
      forall i :: 0 <= i < |ns| ==>
        rows[i].votes == pub.nominees[i].totalVotes && rows[i].percent == pub.nominees[i].percent
  {
    var ns := InCategory(noms, cat.id);
    NomineesVotedInSize(votes, cat.id);
    forall i | 0 <= i < |ns| ensures Count(NomineesVotedIn(votes, cat.id), ns[i].id) == PairCount(votes, cat.id, ns[i].id) {
      NomineesVotedInCount(votes, cat.id, ns[i].id);
    }
  }

  const CategoriesLoadFailed := "Erro ao carregar categorias."
  const NomineesLoadFailed := "Erro ao carregar indicados."
  const VotesLoadFailed := "Erro ao carregar votos."

  /** The backend queries `loadResults` issues, in order. */
  datatype Query = CategoriesOf(contestId: string) | NomineesIn(categoryIds: seq<string>) | VotesOf(contestId: string)

  datatype Backend = Backend(
    categoriesOf: string -> Fetch<seq<Category>>,
    nomineesIn: seq<string> -> Fetch<seq<Nominee>>,
    votesOf: string -> Fetch<seq<VotePair>>)

  datatype Tab = Tab(rows: seq<ResultRow>, isLoading: bool, error: Option<string>)

  datatype Loaded = Loaded(tab: Tab, queries: seq<Query>)

  /** `loadResults` once categories `cats` (at least one) were loaded: the
      nominee request, then the vote request; a failure keeps the rows and
      sets its message, success shows the table. */
  function LoadRows(prev: Tab, contestId: string, cats: seq<Category>, b: Backend): (r: Loaded)
    requires cats != []
    ensures var ids := CategoryIds(cats);
      && |r.queries| >= 2 && r.queries[..2] == [CategoriesOf(contestId), NomineesIn(ids)]
      && (b.nomineesIn(ids).Err? ==> r == Loaded(Tab(prev.rows, false, Some(NomineesLoadFailed)), r.queries[..2]))
      && (b.nomineesIn(ids).Ok? ==> r.queries == [CategoriesOf(contestId), NomineesIn(ids), VotesOf(contestId)])
      && (b.nomineesIn(ids).Ok? && b.votesOf(contestId).Err? ==>
            r.tab == Tab(prev.rows, false, Some(VotesLoadFailed)))
      && (b.nomineesIn(ids).Ok? && b.votesOf(contestId).Ok? ==>
            r.tab == Tab(TableRows(cats, b.nomineesIn(ids).value, b.votesOf(contestId).value), false, None))
  {
    var ids := CategoryIds(cats);
    var q2 := [CategoriesOf(contestId), NomineesIn(ids)];
    match b.nomineesIn(ids)
    case Err => Loaded(Tab(prev.rows, false, Some(NomineesLoadFailed)), q2)
    case Ok(noms) =>
      var q3 := q2 + [VotesOf(contestId)];
      assert q3[..2] == q2;
      match b.votesOf(contestId)
      case Err => Loaded(Tab(prev.rows, false, Some(VotesLoadFailed)), q3)
      case Ok(votes) => Loaded(Tab(TableRows(cats, noms, votes), false, None), q3)
  }

  /** `loadResults`: an empty contest id clears the rows and asks nothing; a
      failed category request keeps the rows and sets its message; no
      categories means no rows. */
  function LoadResults(prev: Tab, contestId: string, b: Backend): (r: Loaded)
    ensures contestId == "" <==> r.queries == []
    ensures contestId == "" ==> r.tab == prev.(rows := [])
    ensures contestId != "" ==> !r.tab.isLoading && r.queries[0] == CategoriesOf(contestId)
    ensures contestId != "" && b.categoriesOf(contestId).Err? ==>
      r == Loaded(Tab(prev.rows, false, Some(CategoriesLoadFailed)), [CategoriesOf(contestId)])
    ensures contestId != "" && b.categoriesOf(contestId).Ok? && b.categoriesOf(contestId).value == [] ==>
      r == Loaded(Tab([], false, None), [CategoriesOf(contestId)])
    ensures contestId != "" && b.categoriesOf(contestId).Ok? && b.categoriesOf(contestId).value != [] ==>
      r == LoadRows(prev, contestId, b.categoriesOf(contestId).value, b)
  {
    if contestId == "" then Loaded(prev.(rows := []), [])
    else
      match b.categoriesOf(contestId)
      case Err => Loaded(Tab(prev.rows, false, Some(CategoriesLoadFailed)), [CategoriesOf(contestId)])
      case Ok(cats) =>
        if cats == [] then Loaded(Tab([], false, None), [CategoriesOf(contestId)])
        else LoadRows(prev, contestId, cats, b)
  }
}
