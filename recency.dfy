/** The recency filter and the ordering of the grid: keep the repositories
    updated after a cutoff one year back, then order them newest first with
    a stable sort (equal timestamps keep the order the API gave them). */
module Recency {
  import opened Repository

  /** 365 days of 24 hours, in milliseconds. */
  const OneYear: int := 365 * 24 * 60 * 60 * 1000

  /** `filter`: the repositories updated strictly after `cutoff`, in order. */
  function KeepRecent(repos: seq<Repo>, cutoff: int): seq<Repo> {
    if repos == [] then []
    else if repos[0].updated > cutoff then [repos[0]] + KeepRecent(repos[1..], cutoff)
    else KeepRecent(repos[1..], cutoff)
  }

  /** Puts `r` in front of the first repository that is not newer than it. */
  function Insert(r: Repo, sorted: seq<Repo>): seq<Repo> {
    if sorted == [] || r.updated >= sorted[0].updated then [r] + sorted
    else [sorted[0]] + Insert(r, sorted[1..])
  }

  /** `sort` by `updated`, descending; an insertion sort, stable as the
      language's `Array.prototype.sort` is. */
  function SortNewestFirst(repos: seq<Repo>): seq<Repo> {
    if repos == [] then [] else Insert(repos[0], SortNewestFirst(repos[1..]))
  }

  /** The list the grid shows at time `now`. */
  function RecentNewestFirst(repos: seq<Repo>, now: int): seq<Repo> {
    SortNewestFirst(KeepRecent(repos, now - OneYear))
  }

  predicate NewestFirst(s: seq<Repo>) {
    forall i, j :: 0 <= i < j < |s| ==> s[i].updated >= s[j].updated
  }

  /** The repositories of `s` with timestamp `t`, in their order in `s`. */
  function UpdatedAt(s: seq<Repo>, t: int): seq<Repo> {
    if s == [] then []
    else if s[0].updated == t then [s[0]] + UpdatedAt(s[1..], t)
    else UpdatedAt(s[1..], t)
  }

  /** The filter keeps each repository updated after the cutoff as often as
      it occurs, drops every other one, and keeps the input order among
      repositories with one timestamp. */
  lemma {:induction false} KeepRecentSpec(repos: seq<Repo>, cutoff: int)
    ensures forall r ::
      multiset(KeepRecent(repos, cutoff))[r] == (if r.updated > cutoff then multiset(repos)[r] else 0)
    ensures forall t ::
      UpdatedAt(KeepRecent(repos, cutoff), t) == (if t > cutoff then UpdatedAt(repos, t) else [])
  {
    if repos != [] {
      KeepRecentSpec(repos[1..], cutoff);
      assert repos == [repos[0]] + repos[1..];
    }
  }

  lemma {:induction false} InsertPermutes(r: Repo, sorted: seq<Repo>)
    ensures multiset(Insert(r, sorted)) == multiset(sorted) + multiset{r}
  {
    if sorted != [] && r.updated < sorted[0].updated {
      InsertPermutes(r, sorted[1..]);
      assert sorted == [sorted[0]] + sorted[1..];
    }
  }

  lemma {:induction false} InsertOrdered(r: Repo, sorted: seq<Repo>)
    requires NewestFirst(sorted)
    ensures NewestFirst(Insert(r, sorted))
  {
    if sorted != [] && r.updated < sorted[0].updated {
      var rest := sorted[1..];
      InsertOrdered(r, rest);
      InsertPermutes(r, rest);
      var ins := Insert(r, rest);
      forall k | 0 <= k < |ins| ensures sorted[0].updated >= ins[k].updated {
        assert ins[k] in multiset(ins);
        if ins[k] != r {
          assert ins[k] in multiset(rest);
        }
      }
    }
  }

  lemma {:induction false} InsertStable(r: Repo, sorted: seq<Repo>, t: int)
    ensures UpdatedAt(Insert(r, sorted), t) ==
      (if r.updated == t then [r] + UpdatedAt(sorted, t) else UpdatedAt(sorted, t))
  {
    if sorted != [] && r.updated < sorted[0].updated {
      InsertStable(r, sorted[1..], t);
      assert ([sorted[0]] + Insert(r, sorted[1..]))[1..] == Insert(r, sorted[1..]);
    } else {
      assert ([r] + sorted)[1..] == sorted;
    }
  }

  /** The sort is a permutation, orders newest first, and is stable: the
      repositories sharing a timestamp keep their input order. */
  lemma {:induction false} SortSpec(repos: seq<Repo>)
    ensures multiset(SortNewestFirst(repos)) == multiset(repos)
    ensures NewestFirst(SortNewestFirst(repos))
    ensures forall t :: UpdatedAt(SortNewestFirst(repos), t) == UpdatedAt(repos, t)
  {
    if repos != [] {
      SortSpec(repos[1..]);
      InsertPermutes(repos[0], SortNewestFirst(repos[1..]));
      InsertOrdered(repos[0], SortNewestFirst(repos[1..]));
      forall t ensures UpdatedAt(SortNewestFirst(repos), t) == UpdatedAt(repos, t) {
        InsertStable(repos[0], SortNewestFirst(repos[1..]), t);
      }
      assert repos == [repos[0]] + repos[1..];
    }
  }

  /** What the grid is built from: exactly the repositories updated after
      `now - OneYear`, each as often as the API listed it, none at or before
      the cutoff, newest first, ties in the API's order. */
  lemma RecentNewestFirstSpec(repos: seq<Repo>, now: int)
    ensures forall r ::
      multiset(RecentNewestFirst(repos, now))[r] == (if r.updated > now - OneYear then multiset(repos)[r] else 0)
    ensures forall r :: r in RecentNewestFirst(repos, now) <==> r in repos && r.updated > now - OneYear
    ensures NewestFirst(RecentNewestFirst(repos, now))
    ensures forall t ::
      UpdatedAt(RecentNewestFirst(repos, now), t) == (if t > now - OneYear then UpdatedAt(repos, t) else [])
  {
    var kept := KeepRecent(repos, now - OneYear);
    KeepRecentSpec(repos, now - OneYear);
    SortSpec(kept);
    forall r ensures r in RecentNewestFirst(repos, now) <==> r in repos && r.updated > now - OneYear {
      assert r in RecentNewestFirst(repos, now) <==> r in multiset(RecentNewestFirst(repos, now));
      assert r in repos <==> r in multiset(repos);
    }
  }
}
