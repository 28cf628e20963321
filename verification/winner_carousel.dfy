/** The winner carousel on the public results page
    (src/components/results/WinnerCarousel.tsx): which nominee is shown as
    the winner, which as the others, and how the slide index moves. */
module WinnerCarousel {
  import opened Wrappers
  import opened ResultsData
  import opened Sorting

  function FirstWinnerIndex(ns: seq<ResultsNominee>): (r: nat)
    ensures r <= |ns|
    ensures r < |ns| ==> ns[r].isWinner
    ensures forall j :: 0 <= j < r ==> !ns[j].isWinner
  {
    if ns == [] then 0
    else if ns[0].isWinner then 0
    else 1 + FirstWinnerIndex(ns[1..])
  }

  /** `nominees.find((n) => n.isWinner) ?? null`. */
  function GetWinner(c: ResultsCategory): (r: Option<ResultsNominee>)
    ensures r.None? <==> forall i :: 0 <= i < |c.nominees| ==> !c.nominees[i].isWinner
    ensures r.Some? ==>
      (exists i :: 0 <= i < |c.nominees| && c.nominees[i] == r.value && r.value.isWinner &&
        forall j :: 0 <= j < i ==> !c.nominees[j].isWinner)
  {
    var i := FirstWinnerIndex(c.nominees);
    if i < |c.nominees| then Some(c.nominees[i]) else None
  }

  /** The ids of every nominee flagged as winner. */
  function WinnerIds(ns: seq<ResultsNominee>): (r: seq<string>)
    ensures forall k :: k in r <==> exists i :: 0 <= i < |ns| && ns[i].isWinner && ns[i].id == k
  {
    if ns == [] then []
    else
      var rest := WinnerIds(ns[1..]);
      assert forall i :: 1 <= i < |ns| ==> ns[i] == ns[1..][i - 1];
      (if ns[0].isWinner then [ns[0].id] else []) + rest
  }

  /** `ns.filter((n) => !winners.includes(n.id))`. */
  function KeepOthers(ns: seq<ResultsNominee>, winners: seq<string>): seq<ResultsNominee>
  {
    if ns == [] then []
    else (if ns[0].id !in winners then [ns[0]] else []) + KeepOthers(ns[1..], winners)
  }

  lemma {:induction false} KeepOthersMembers(ns: seq<ResultsNominee>, winners: seq<string>)
    ensures forall n :: n in KeepOthers(ns, winners) <==> n in ns && n.id !in winners
    decreases |ns|
  {
    if ns != [] {
      assert ns == [ns[0]] + ns[1..];
      KeepOthersMembers(ns[1..], winners);
    }
  }

  /** `KeepOthers` is an order-preserving filter: it splits over
      concatenation and keeps a single nominee exactly when its id is not a
      winner's. */
  lemma KeepOthersFilter(a: seq<ResultsNominee>, b: seq<ResultsNominee>, x: ResultsNominee, winners: seq<string>)
    ensures KeepOthers(a + b, winners) == KeepOthers(a, winners) + KeepOthers(b, winners)
    ensures KeepOthers([x], winners) == (if x.id !in winners then [x] else [])
  {
    KeepOthersAppend(a, b, winners);
    KeepOthersCons(x, [], winners);
    assert [x] + [] == [x];
  }

  lemma {:induction false} KeepOthersAppend(a: seq<ResultsNominee>, b: seq<ResultsNominee>, winners: seq<string>)
    ensures KeepOthers(a + b, winners) == KeepOthers(a, winners) + KeepOthers(b, winners)
    decreases |a|
  {
    if a == [] {
      assert a + b == b;
    } else {
      var y, rest := a[0], a[1..];
      var h := if y.id !in winners then [y] else [];
      assert a == [y] + rest;
      assert a + b == [y] + (rest + b);
      KeepOthersAppend(rest, b, winners);
      KeepOthersCons(y, rest + b, winners);
      KeepOthersCons(y, rest, winners);
      calc {
        KeepOthers(a + b, winners);
        h + KeepOthers(rest + b, winners);
        h + (KeepOthers(rest, winners) + KeepOthers(b, winners));
        (h + KeepOthers(rest, winners)) + KeepOthers(b, winners);
        KeepOthers(a, winners) + KeepOthers(b, winners);
      }
    }
  }

  lemma KeepOthersCons(y: ResultsNominee, ys: seq<ResultsNominee>, winners: seq<string>)
    ensures KeepOthers([y] + ys, winners) == (if y.id !in winners then [y] else []) + KeepOthers(ys, winners)
  {
    assert ([y] + ys)[1..] == ys;
  }

  /** `getNonWinners`: every nominee whose id is not the id of any winner, in
      order. */
  function GetNonWinners(c: ResultsCategory): (r: seq<ResultsNominee>)
    ensures forall n :: n in r <==>
      n in c.nominees && forall i :: 0 <= i < |c.nominees| && c.nominees[i].isWinner ==> c.nominees[i].id != n.id
  {
    KeepOthersMembers(c.nominees, WinnerIds(c.nominees));
    KeepOthers(c.nominees, WinnerIds(c.nominees))
  }

  /** The others panel lists the non-winners by vote count, largest first,
      ties in their original order. */
  function OrderedOthers(c: ResultsCategory): (r: seq<ResultsNominee>)
    ensures SortedDesc(r, (n: ResultsNominee) => n.totalVotes)
    ensures multiset(r) == multiset(GetNonWinners(c))
  {
    SortDesc(GetNonWinners(c), (n: ResultsNominee) => n.totalVotes)
  }

  /** A second nominee tied for first place (with a different id) is shown
      neither as the winner nor among the others. */
  lemma TiedWinnerHidden(c: ResultsCategory, i: nat, j: nat)
    requires i < j < |c.nominees|
    requires c.nominees[i].isWinner && c.nominees[j].isWinner
    requires DistinctIds(c.nominees)
    ensures GetWinner(c) != Some(c.nominees[j])
    ensures c.nominees[j] !in GetNonWinners(c)
  {
    var k := FirstWinnerIndex(c.nominees);
    assert k <= i < j;
    assert c.nominees[k].id != c.nominees[j].id;
  }

  /** Nominee ids are primary keys. */
  predicate DistinctIds(ns: seq<ResultsNominee>)
  {
    forall a, b :: 0 <= a < b < |ns| ==> ns[a].id != ns[b].id
  }

  /** `handleNext`. */
  function Next(index: nat, total: nat): (r: nat)
    ensures total == 0 ==> r == index
    ensures total > 0 ==> r < total
    ensures index + 1 < total ==> r == index + 1
    ensures 0 < total && index + 1 == total ==> r == 0
  {
    if total == 0 then index
    else
      assert index + 1 < 2 * total ==> (index + 1) % total == (if index + 1 < total then index + 1 else index + 1 - total) by {
        if index + 1 < 2 * total { ModInRange(index + 1, total); }
      }
      (index + 1) % total
  }

  /** `handlePrev`. */
  function Prev(index: nat, total: nat): (r: nat)
    ensures total == 0 ==> r == index
    ensures total > 0 ==> r < total
    ensures 0 < index < total ==> r == index - 1
    ensures 0 == index < total ==> r == total - 1
  {
    if total == 0 then index
    else
      assert index < total ==> (index - 1 + total) % total == (if index > 0 then index - 1 else total - 1) by {
        if index < total { ModInRange(index - 1 + total, total); }
      }
      (index - 1 + total) % total
  }

  /** Next and previous undo each other on every in-range index. */
  lemma NextPrevInverse(index: nat, total: nat)
    requires index < total
    ensures Prev(Next(index, total), total) == index
    ensures Next(Prev(index, total), total) == index
  {
    var n := Next(index, total);
    var p := Prev(index, total);
    if index + 1 < total {
      assert Prev(n, total) == index;
    } else {
      assert n == 0;
    }
    if index > 0 {
      assert Next(p, total) == index;
    } else {
      assert p == total - 1;
    }
  }

  lemma ModInRange(a: nat, t: nat)
    requires 0 < t && a < 2 * t
    ensures a % t == (if a < t then a else a - t)
  {
    if a >= t {
      assert a == 1 * t + (a - t);
    }
  }

  /** The effect that sends a stale index back to the first slide. */
  function ResetIndex(index: nat, total: nat): (r: nat)
    ensures total > 0 ==> r < total
    ensures index < total ==> r == index
    ensures total == 0 ==> r == index
    ensures 0 < total <= index ==> r == 0
  {
    if index >= total && total > 0 then 0 else index
  }

  /** After the reset, a carousel with any category always has a slide to
      show. */
  lemma ResetShowsSlide(cats: seq<ResultsCategory>, index: nat)
    requires |cats| > 0
    ensures Render(cats, ResetIndex(index, |cats|)).Some?
  {
  }

  /** What one slide shows. */
  datatype Slide = Slide(title: string, winner: Option<ResultsNominee>, others: seq<ResultsNominee>)

  /** `slides[currentIndex] ?? null`: no slide at all past the end. */
  function Render(cats: seq<ResultsCategory>, index: nat): (r: Option<Slide>)
    ensures r.None? <==> index >= |cats|
    ensures r.Some? ==>
      && r.value.title == cats[index].name
      && r.value.winner == GetWinner(cats[index])
      && SortedDesc(r.value.others, (n: ResultsNominee) => n.totalVotes)
      && multiset(r.value.others) == multiset(GetNonWinners(cats[index]))
  {
    if index < |cats| then
      var c := cats[index];
      Some(Slide(c.name, GetWinner(c), OrderedOthers(c)))
    else None
  }
}
