/** The voting page (src/modules/public/vote/VotePage.tsx): grouping the
    loaded nominees by category, dismissing a toast, and when the ballot is
    shown. */
module VotePage {
  import opened Wrappers
  import opened Domain
  import opened Counting
  import ContestData

  function CategoryIdsOf(noms: seq<Nominee>): (r: seq<string>)
    ensures |r| == |noms|
    ensures forall i :: 0 <= i < |noms| ==> r[i] == noms[i].categoryId
  {
    if noms == [] then [] else CategoryIdsOf(noms[..|noms| - 1]) + [noms[|noms| - 1].categoryId]
  }

  /** `nominees.reduce((acc, n) => { (acc[n.category_id] ??= []).push(n); return acc }, {})`:
      a key exists only for a category some nominee carries, and each group is
      that category's nominees in input order. */
  function GroupByCategory(noms: seq<Nominee>): (m: map<string, seq<Nominee>>)
    ensures forall k :: k in m <==> k in CategoryIdsOf(noms)
    ensures forall k :: k in m ==> m[k] == InCategory(noms, k)
  {
    if noms == [] then map[]
    else
      var prefix := noms[..|noms| - 1];
      var n := noms[|noms| - 1];
      var acc := GroupByCategory(prefix);
      assert CategoryIdsOf(noms) == CategoryIdsOf(prefix) + [n.categoryId];
      assert n.categoryId !in acc ==> InCategory(prefix, n.categoryId) == [] by {
        if n.categoryId !in acc {
          NoneInCategory(prefix, n.categoryId);
        }
      }
      acc[n.categoryId := (if n.categoryId in acc then acc[n.categoryId] else []) + [n]]
  }

  lemma {:induction false} NoneInCategory(noms: seq<Nominee>, k: string)
    requires k !in CategoryIdsOf(noms)
    ensures InCategory(noms, k) == []
    decreases |noms|
  {
    if noms != [] {
      var prefix := noms[..|noms| - 1];
      assert CategoryIdsOf(noms) == CategoryIdsOf(prefix) + [noms[|noms| - 1].categoryId];
      NoneInCategory(prefix, k);
    }
  }

  lemma {:induction false} InCategorySize(noms: seq<Nominee>, k: string)
    ensures |InCategory(noms, k)| == Count(CategoryIdsOf(noms), k)
    decreases |noms|
  {
    if noms != [] {
      var prefix := noms[..|noms| - 1];
      assert CategoryIdsOf(noms)[..|noms| - 1] == CategoryIdsOf(prefix);
      InCategorySize(prefix, k);
    }
  }

  /** Every nominee lands in the group keyed by its own category. */
  lemma {:induction false} InCategoryMembers(noms: seq<Nominee>, k: string)
    ensures forall n :: n in InCategory(noms, k) <==> n in noms && n.categoryId == k
    decreases |noms|
  {
    if noms != [] {
      var prefix := noms[..|noms| - 1];
      InCategoryMembers(prefix, k);
      assert noms == prefix + [noms[|noms| - 1]];
    }
  }

  function SumGroupSizes(m: map<string, seq<Nominee>>, keys: seq<string>): nat
  {
    if keys == [] then 0
    else SumGroupSizes(m, keys[..|keys| - 1]) + (if keys[|keys| - 1] in m then |m[keys[|keys| - 1]]| else 0)
  }

  lemma {:induction false} SumGroupSizesIsSumCounts(noms: seq<Nominee>, keys: seq<string>)
    ensures SumGroupSizes(GroupByCategory(noms), keys) == SumCounts(CategoryIdsOf(noms), keys)
    decreases |keys|
  {
    if keys != [] {
      var k := keys[|keys| - 1];
      SumGroupSizesIsSumCounts(noms, keys[..|keys| - 1]);
      InCategorySize(noms, k);
      if k !in GroupByCategory(noms) {
        CountPositive(CategoryIdsOf(noms), k);
      }
    }
  }

  /** Over the record's keys (one per distinct category, in first-occurrence
      order), the group sizes add up to the number of nominees. */
  lemma GroupSizesSum(noms: seq<Nominee>)
    ensures SumGroupSizes(GroupByCategory(noms), Keys(Tally(CategoryIdsOf(noms)))) == |noms|
  {
    var ids := CategoryIdsOf(noms);
    var keys := Keys(Tally(ids));
    TallyKeys(ids);
    SumGroupSizesIsSumCounts(noms, keys);
    ListedCountsBound(ids, keys);
  }

  datatype Toast = Toast(id: string, author: string, message: string, accentClass: Option<string>)

  function ToastIds(ts: seq<Toast>): (r: seq<string>)
    ensures |r| == |ts|
    ensures forall i :: 0 <= i < |ts| ==> r[i] == ts[i].id
  {
    if ts == [] then [] else [ts[0].id] + ToastIds(ts[1..])
  }

  /** `prev.filter((t) => t.id !== id)`. */
  function DismissToast(ts: seq<Toast>, id: string): seq<Toast>
  {
    if ts == [] then [] else (if ts[0].id == id then [] else [ts[0]]) + DismissToast(ts[1..], id)
  }

  /** Dismissing removes exactly the toasts carrying the id: every other toast
      stays. */
  lemma {:induction false} DismissKeeps(ts: seq<Toast>, id: string)
    ensures forall t :: t in DismissToast(ts, id) <==> t in ts && t.id != id
    decreases |ts|
  {
    if ts != [] {
      var t, rest := ts[0], ts[1..];
      assert ts == [t] + rest;
      DismissKeeps(rest, id);
      DismissCons(t, rest, id);
    }
  }

  /** The list shrinks by the number of toasts that carried the id. */
  lemma {:induction false} DismissCount(ts: seq<Toast>, id: string)
    ensures |DismissToast(ts, id)| + Count(ToastIds(ts), id) == |ts|
    decreases |ts|
  {
    if ts != [] {
      var t, rest := ts[0], ts[1..];
      assert ts == [t] + rest;
      DismissCount(rest, id);
      DismissCons(t, rest, id);
      assert ToastIds(ts) == [t.id] + ToastIds(rest);
      CountAppend([t.id], ToastIds(rest), id);
      assert Count([t.id], id) == (if t.id == id then 1 else 0) by {
        assert [t.id][..0] == [];
      }
    }
  }

  /** Dismissing an id no toast carries changes nothing. */
  lemma {:induction false} DismissAbsent(ts: seq<Toast>, id: string)
    requires id !in ToastIds(ts)
    ensures DismissToast(ts, id) == ts
    decreases |ts|
  {
    if ts != [] {
      var t, rest := ts[0], ts[1..];
      assert ts == [t] + rest;
      assert ToastIds(ts) == [t.id] + ToastIds(rest);
      DismissAbsent(rest, id);
      DismissCons(t, rest, id);
    }
  }

  /** Dismissing the same toast twice is the same as dismissing it once. */
  lemma DismissIdempotent(ts: seq<Toast>, id: string)
    ensures DismissToast(DismissToast(ts, id), id) == DismissToast(ts, id)
  {
    var r := DismissToast(ts, id);
    DismissKeeps(ts, id);
    assert id !in ToastIds(r) by {
      forall i | 0 <= i < |r| ensures ToastIds(r)[i] != id {
        assert r[i] in r;
      }
    }
    DismissAbsent(r, id);
  }

  lemma DismissCons(t: Toast, rest: seq<Toast>, id: string)
    ensures DismissToast([t] + rest, id) == (if t.id != id then [t] else []) + DismissToast(rest, id)
  {
    assert ([t] + rest)[1..] == rest;
  }

  /** Dismissals of two toasts commute. */
  lemma {:induction false} DismissCommutes(ts: seq<Toast>, a: string, b: string)
    ensures DismissToast(DismissToast(ts, a), b) == DismissToast(DismissToast(ts, b), a)
    decreases |ts|
  {
    if ts != [] {
      var t, rest := ts[0], ts[1..];
      assert ts == [t] + rest;
      DismissCommutes(rest, a, b);
      DismissCons(t, rest, a);
      DismissCons(t, rest, b);
      var ra, rb := DismissToast(rest, a), DismissToast(rest, b);
      var ab, ba := DismissToast(ra, b), DismissToast(rb, a);
      if t.id != a && t.id != b {
        DismissCons(t, ra, b);
        DismissCons(t, rb, a);
        assert DismissToast(DismissToast(ts, a), b) == [t] + ab;
        assert DismissToast(DismissToast(ts, b), a) == [t] + ba;
      } else if t.id != a {
        DismissCons(t, ra, b);
        assert DismissToast(ts, b) == rb;
        assert DismissToast(DismissToast(ts, a), b) == ab;
      } else if t.id != b {
        DismissCons(t, rb, a);
        assert DismissToast(ts, a) == ra;
        assert DismissToast(DismissToast(ts, b), a) == ba;
      } else {
        assert DismissToast(ts, a) == ra && DismissToast(ts, b) == rb;
      }
    }
  }

  /** `status === "ready" && contest && voter`. */
  predicate ShowsBallot(v: ContestData.LinkView)
  {
    v.status == ContestData.Ready && v.contest.Some? && v.voter.Some?
  }

  /** Whenever the loader ends ready the ballot is shown, and it is shown for
      no other outcome. */
  lemma ReadyShowsBallot(prev: ContestData.LinkView, token: Option<string>, b: ContestData.LinkBackend, now: int, timeOf: string -> int)
    ensures var v := ContestData.Load(prev, token, b, now, timeOf).view;
      ShowsBallot(v) <==> v.status == ContestData.Ready
  {
  }
}
