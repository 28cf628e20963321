/** The public results loader (src/hooks/useResultsData.ts): the reveal gate,
    the per-category tally of vote rows, percentages and winner marking, with
    every backend reply supplied as an input. */
module ResultsData {
  import opened Wrappers
  import opened Domain
  import opened Counting
  import Nullish

  datatype ResultsNominee = ResultsNominee(
    id: string,
    name: string,
    imageUrl: Option<string>,
    totalVotes: nat,
    percent: real,
    isWinner: bool)

  datatype ResultsCategory = ResultsCategory(id: string, name: string, nominees: seq<ResultsNominee>)

  datatype ResultsStatus = Loading | Error | BeforeReveal | Ready

  datatype ResultsView = ResultsView(status: ResultsStatus, contest: Option<Contest>, categories: seq<ResultsCategory>)

  /** The replies the loader receives: the configured contest (at most one
      row), its categories in `sort_order`, and, per category id, that
      category's nominees in `sort_order` and the `nominee_id` column of its
      vote rows for the configured contest. */
  datatype ResultsBackend = ResultsBackend(
    contest: Fetch<Option<Contest>>,
    categories: Fetch<seq<Category>>,
    nominees: string -> Fetch<seq<Nominee>>,
    votes: string -> Fetch<seq<string>>)

  /** The state before the first load completes. */
  const Initial := ResultsView(Loading, None, [])

  /** The results are withheld while `reveal_at` is unset (null or empty) or
      still in the future. */
  predicate Withheld(c: Contest, now: int, timeOf: string -> int)
  {
    !Nullish.Truthy(c.revealAt) || now < timeOf(c.revealAt.value)
  }

  /** `reduce((max, n) => Math.max(max, n.totalVotes), 0)`. */
  function MaxVotes(ns: seq<ResultsNominee>): (m: nat)
    ensures forall i :: 0 <= i < |ns| ==> ns[i].totalVotes <= m
    ensures m == 0 || exists i :: 0 <= i < |ns| && ns[i].totalVotes == m
  {
    if ns == [] then 0
    else
      var m := MaxVotes(ns[..|ns| - 1]);
      var last := ns[|ns| - 1].totalVotes;
      if m < last then last else m
  }

  /** One category's nominees with their counts, shares and winner flags. */
  function TabulateCategory(cat: Category, noms: seq<Nominee>, voteIds: seq<string>): (r: ResultsCategory)
    ensures r.id == cat.id && r.name == cat.name
    ensures |r.nominees| == |noms|
    ensures forall i :: 0 <= i < |noms| ==>
      && r.nominees[i].id == noms[i].id
      && r.nominees[i].name == noms[i].name
      && r.nominees[i].imageUrl == noms[i].imageUrl
    ensures forall i :: 0 <= i < |noms| ==> r.nominees[i].totalVotes == Count(voteIds, noms[i].id)
    ensures forall i :: 0 <= i < |noms| ==> r.nominees[i].percent == Percent(r.nominees[i].totalVotes, |voteIds|)
    ensures forall i :: 0 <= i < |noms| ==> 0.0 <= r.nominees[i].percent <= 100.0
    ensures forall i :: 0 <= i < |noms| ==>
      (r.nominees[i].isWinner <==>
        r.nominees[i].totalVotes > 0 &&
        forall j :: 0 <= j < |noms| ==> r.nominees[j].totalVotes <= r.nominees[i].totalVotes)
  {
    var totals := Tally(voteIds);
    var total := Total(totals);
    TallyCountsAll(voteIds);
    TallyTotal(voteIds);
    assert forall i :: 0 <= i < |noms| ==> Count(voteIds, noms[i].id) <= |voteIds| by {
      forall i | 0 <= i < |noms| ensures Count(voteIds, noms[i].id) <= |voteIds| {
        CountBound(voteIds, noms[i].id);
      }
    }
    var withVotes := seq(|noms|, i requires 0 <= i < |noms| =>
      var n := Lookup(totals, noms[i].id);
      ResultsNominee(noms[i].id, noms[i].name, noms[i].imageUrl, n, Percent(n, total), false));
    var max := MaxVotes(withVotes);
    var marked := seq(|withVotes|, i requires 0 <= i < |withVotes| =>
      withVotes[i].(isWinner := max > 0 && withVotes[i].totalVotes == max));
    ResultsCategory(cat.id, cat.name, marked)
  }

  /** The per-category loop: stops at the first failed nominee or vote fetch. */
  function TabulateAll(cats: seq<Category>, b: ResultsBackend): (r: Fetch<seq<ResultsCategory>>)
    ensures r.Ok? <==> forall i :: 0 <= i < |cats| ==> b.nominees(cats[i].id).Ok? && b.votes(cats[i].id).Ok?
    ensures r.Ok? ==> |r.value| == |cats|
    ensures r.Ok? ==> forall i :: 0 <= i < |cats| ==>
      r.value[i] == TabulateCategory(cats[i], b.nominees(cats[i].id).value, b.votes(cats[i].id).value)
  {
    if cats == [] then Ok([])
    else
      match b.nominees(cats[0].id)
      case Err => Err
      case Ok(noms) =>
        match b.votes(cats[0].id)
        case Err => Err
        case Ok(voteIds) =>
          match TabulateAll(cats[1..], b)
          case Err =>
            assert forall i :: 0 <= i < |cats[1..]| ==> cats[1..][i] == cats[i + 1];
            Err
          case Ok(rest) => Ok([TabulateCategory(cats[0], noms, voteIds)] + rest)
  }

  /** The `load` effect, from any previous view: every outcome it reaches. */
  function Load(b: ResultsBackend, now: int, timeOf: string -> int): (v: ResultsView)
    ensures v.status != Loading
    // no contest row, or the contest fetch failed: error with nothing kept
    ensures (b.contest.Err? || b.contest.value.None?) <==> v.contest.None?
    ensures v.contest.None? ==> v.status == Error && v.categories == []
    ensures v.contest.Some? ==> b.contest == Ok(v.contest)
    // the reveal gate
    ensures v.status == BeforeReveal <==> v.contest.Some? && Withheld(v.contest.value, now, timeOf)
    ensures v.status != Ready ==> v.categories == []
    // all or nothing
    ensures v.status == Ready <==>
      && v.contest.Some?
      && !Withheld(v.contest.value, now, timeOf)
      && b.categories.Ok?
      && forall i :: 0 <= i < |b.categories.value| ==>
           b.nominees(b.categories.value[i].id).Ok? && b.votes(b.categories.value[i].id).Ok?
    ensures v.status == Ready ==>
      var cats := b.categories.value;
      && |v.categories| == |cats|
      && forall i :: 0 <= i < |cats| ==>
           v.categories[i] == TabulateCategory(cats[i], b.nominees(cats[i].id).value, b.votes(cats[i].id).value)
  {
    match b.contest
    case Err => ResultsView(Error, None, [])
    case Ok(None) => ResultsView(Error, None, [])
    case Ok(Some(c)) =>
      if Withheld(c, now, timeOf) then ResultsView(BeforeReveal, Some(c), [])
      else
        match b.categories
        case Err => ResultsView(Error, Some(c), [])
        case Ok(cats) =>
          match TabulateAll(cats, b)
          case Err => ResultsView(Error, Some(c), [])
          case Ok(rs) => ResultsView(Ready, Some(c), rs)
  }

  function SumVotes(ns: seq<ResultsNominee>): nat
  {
    if ns == [] then 0 else SumVotes(ns[..|ns| - 1]) + ns[|ns| - 1].totalVotes
  }

  function SumPercent(ns: seq<ResultsNominee>): real
  {
    if ns == [] then 0.0 else SumPercent(ns[..|ns| - 1]) + ns[|ns| - 1].percent
  }

  function NomineeIds(noms: seq<Nominee>): (r: seq<string>)
    ensures |r| == |noms|
    ensures forall i :: 0 <= i < |noms| ==> r[i] == noms[i].id
  {
    if noms == [] then [] else NomineeIds(noms[..|noms| - 1]) + [noms[|noms| - 1].id]
  }

  lemma {:induction false} SumVotesIsSumCounts(ns: seq<ResultsNominee>, noms: seq<Nominee>, voteIds: seq<string>)
    requires |ns| == |noms|
    requires forall i :: 0 <= i < |noms| ==> ns[i].totalVotes == Count(voteIds, noms[i].id)
    ensures SumVotes(ns) == SumCounts(voteIds, NomineeIds(noms))
    decreases |ns|
  {
    if ns != [] {
      var n := |ns| - 1;
      assert NomineeIds(noms)[..n] == NomineeIds(noms[..n]);
      SumVotesIsSumCounts(ns[..n], noms[..n], voteIds);
    }
  }

  /** The listed nominees' counts never add up to more than the category total
      (every vote row), and add up to exactly that when every voted id is a
      listed nominee. Nominee ids are primary keys, hence distinct. */
  lemma ListedVotesWithinTotal(cat: Category, noms: seq<Nominee>, voteIds: seq<string>)
    requires Distinct(NomineeIds(noms))
    ensures SumVotes(TabulateCategory(cat, noms, voteIds).nominees) <= |voteIds|
    ensures (forall i :: 0 <= i < |voteIds| ==> voteIds[i] in NomineeIds(noms)) ==>
      SumVotes(TabulateCategory(cat, noms, voteIds).nominees) == |voteIds|
  {
    var r := TabulateCategory(cat, noms, voteIds);
    SumVotesIsSumCounts(r.nominees, noms, voteIds);
    ListedCountsBound(voteIds, NomineeIds(noms));
  }

  /** Each share scaled by the total is its vote count times 100. */
  predicate ScaledShares(ns: seq<ResultsNominee>, t: real)
  {
    forall i :: 0 <= i < |ns| ==> ns[i].percent * t == (ns[i].totalVotes as real) * 100.0
  }

  lemma {:induction false} SumPercentScaled(ns: seq<ResultsNominee>, total: nat)
    requires ScaledShares(ns, total as real)
    ensures SumPercent(ns) * (total as real) == (SumVotes(ns) as real) * 100.0
    decreases |ns|
  {
    if ns != [] {
      var n := |ns| - 1;
      var pre := ns[..n];
      var t, p, y := total as real, ns[n].percent, ns[n].totalVotes as real;
      assert ScaledShares(pre, t) by {
        forall i | 0 <= i < |pre| ensures pre[i].percent * t == (pre[i].totalVotes as real) * 100.0 {
          assert pre[i] == ns[i];
        }
      }
      SumPercentScaled(pre, total);
      assert p * t == y * 100.0;
      assert SumPercent(ns) == SumPercent(pre) + p;
      assert SumVotes(ns) as real == SumVotes(pre) as real + y;
      AddScaled(SumPercent(pre), p, t, SumVotes(pre) as real, y);
    }
  }

  lemma AddScaled(a: real, p: real, t: real, x: real, y: real)
    requires a * t == x * 100.0 && p * t == y * 100.0
    ensures (a + p) * t == (x + y) * 100.0
  {
  }

  lemma ShareScaled(n: ResultsNominee, total: nat)
    requires total > 0 && n.percent == Percent(n.totalVotes, total)
    ensures n.percent * (total as real) == (n.totalVotes as real) * 100.0
  {
  }

  lemma WholeShare(a: real, x: real, t: real)
    requires t > 0.0 && a * t == x * 100.0 && x == t
    ensures a == 100.0
  {
    assert (a - 100.0) * t == 0.0;
  }

  lemma PercentsScaled(ns: seq<ResultsNominee>, total: nat)
    requires total > 0
    requires forall i :: 0 <= i < |ns| ==> ns[i].percent == Percent(ns[i].totalVotes, total)
    ensures ScaledShares(ns, total as real)
  {
    forall i | 0 <= i < |ns|
      ensures ns[i].percent * (total as real) == (ns[i].totalVotes as real) * 100.0
    {
      ShareScaled(ns[i], total);
    }
  }

  lemma SharesOfFullCount(ns: seq<ResultsNominee>, total: nat)
    requires total > 0 && SumVotes(ns) == total
    requires ScaledShares(ns, total as real)
    ensures SumPercent(ns) == 100.0
  {
    SumPercentScaled(ns, total);
    WholeShare(SumPercent(ns), SumVotes(ns) as real, total as real);
  }

  /** When every vote row names a listed nominee, the shares add up to exactly
      100 (before display rounding). */
  lemma PercentagesSumTo100(cat: Category, noms: seq<Nominee>, voteIds: seq<string>)
    requires Distinct(NomineeIds(noms))
    requires |voteIds| > 0
    requires forall i :: 0 <= i < |voteIds| ==> voteIds[i] in NomineeIds(noms)
    ensures SumPercent(TabulateCategory(cat, noms, voteIds).nominees) == 100.0
  {
    var ns := TabulateCategory(cat, noms, voteIds).nominees;
    ListedVotesWithinTotal(cat, noms, voteIds);
    PercentsScaled(ns, |voteIds|);
    SharesOfFullCount(ns, |voteIds|);
  }

  /** A category where some listed nominee received a vote has a winner. */
  lemma SomeVoteSomeWinner(cat: Category, noms: seq<Nominee>, voteIds: seq<string>, k: nat)
    requires k < |noms| && noms[k].id in voteIds
    ensures exists i :: 0 <= i < |noms| && TabulateCategory(cat, noms, voteIds).nominees[i].isWinner
  {
    var r := TabulateCategory(cat, noms, voteIds);
    CountPositive(voteIds, noms[k].id);
    var m := MaxVotes(r.nominees);
    var w :| 0 <= w < |r.nominees| && r.nominees[w].totalVotes == m;
    assert r.nominees[w].isWinner;
  }

  /** With no vote rows every nominee has 0 votes, a 0 share and no winner
      flag. */
  lemma NoVotesNoWinner(cat: Category, noms: seq<Nominee>)
    ensures forall i :: 0 <= i < |noms| ==>
      var n := TabulateCategory(cat, noms, []).nominees[i];
      n.totalVotes == 0 && n.percent == 0.0 && !n.isWinner
  {
  }
}
