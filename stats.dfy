/** Read-only views derived from the article collection: the statistics
    tab of the dashboard and the related-articles panel of an article. */
module Stats {
  import opened Articles

  /** `articles.reduce((sum, a) => sum + (a.views || 0), 0)`. */
  function TotalViews(list: seq<Article>): (t: int)
  {
    if |list| == 0 then 0 else ViewsOf(list[0]) + TotalViews(list[1..])
  }

  lemma {:induction false} TotalConcat(a: seq<Article>, b: seq<Article>)
    ensures TotalViews(a + b) == TotalViews(a) + TotalViews(b)
  {
    if |a| == 0 {
      assert a + b == b;
    } else {
      assert (a + b)[1..] == a[1..] + b;
      TotalConcat(a[1..], b);
    }
  }

  /** With every counter in `[lo, hi]` the total lies in `[n * lo, n * hi]`. */
  lemma {:induction false} TotalBounds(list: seq<Article>, lo: int, hi: int)
    requires forall i :: 0 <= i < |list| ==> lo <= ViewsOf(list[i]) <= hi
    ensures |list| * lo <= TotalViews(list) <= |list| * hi
  {
    if |list| > 0 {
      TotalBounds(list[1..], lo, hi);
      assert |list| * lo == lo + |list[1..]| * lo;
      assert |list| * hi == hi + |list[1..]| * hi;
    }
  }

  /** One call of the view increment raises the total by the number of
      articles carrying the id: one when ids are unique and the id is present. */
  lemma {:induction false} TotalAfterIncrement(list: seq<Article>, id: int)
    ensures TotalViews(IncrementViews(list, id)) == TotalViews(list) + Count(list, id)
  {
    if |list| > 0 {
      var r := IncrementViews(list, id);
      assert r[1..] == IncrementViews(list[1..], id);
      TotalAfterIncrement(list[1..], id);
    }
  }

  /** Deleting takes away exactly the views of the deleted articles. */
  lemma {:induction false} TotalAfterDelete(list: seq<Article>, id: int)
    ensures TotalViews(Without(list, id)) == TotalViews(list) - TotalViews(Only(list, id))
  {
    if |list| > 0 {
      TotalAfterDelete(list[1..], id);
      if list[0].id != id {
        var r := Without(list, id);
        assert r[1..] == Without(list[1..], id);
      } else {
        var o := Only(list, id);
        assert o[1..] == Only(list[1..], id);
      }
    }
  }

  /** The articles carrying `id`, in order (what a delete removes). */
  function Only(list: seq<Article>, id: int): (r: seq<Article>)
    ensures |r| == Count(list, id)
    ensures forall a :: a in r <==> a in list && a.id == id
  {
    if |list| == 0 then []
    else if list[0].id == id then [list[0]] + Only(list[1..], id)
    else Only(list[1..], id)
  }

  /** `Math.round(total / n)` for `n > 0`: the integer nearest to `total / n`,
      halves rounded up. Floor division by the positive `2 * n` gives it
      for every integer total. */
  function RoundedQuotient(total: int, n: int): (r: int)
    requires n > 0
    ensures n * (2 * r - 1) <= 2 * total < n * (2 * r + 1)
  {
    var q := (2 * total + n) / (2 * n);
    var m := (2 * total + n) % (2 * n);
    assert 2 * total + n == 2 * n * q + m && 0 <= m < 2 * n;
    assert n * (2 * q - 1) == 2 * n * q - n;
    assert n * (2 * q + 1) == 2 * n * q + n;
    q
  }

  /** The rounding condition pins down one integer. */
  lemma RoundedQuotientUnique(total: int, n: int, r: int)
    requires n > 0
    requires n * (2 * r - 1) <= 2 * total < n * (2 * r + 1)
    ensures r == RoundedQuotient(total, n)
  {
    var q := RoundedQuotient(total, n);
    if r < q {
      MulMonotone(n, 2 * r + 1, 2 * q - 1);
    } else if r > q {
      MulMonotone(n, 2 * q + 1, 2 * r - 1);
    }
  }

  lemma MulMonotone(n: int, a: int, b: int)
    requires n > 0 && a <= b
    ensures n * a <= n * b
  {
    assert n * b - n * a == n * (b - a);
  }

  /** The "Avg Views/Artikel" figure: 0 for an empty collection. */
  function AverageViews(list: seq<Article>): (r: int)
    ensures |list| == 0 ==> r == 0
    ensures |list| > 0 ==> |list| * (2 * r - 1) <= 2 * TotalViews(list) < |list| * (2 * r + 1)
  {
    if |list| > 0 then RoundedQuotient(TotalViews(list), |list|) else 0
  }

  /** The average lies between the smallest and the largest counter. */
  lemma AverageBounds(list: seq<Article>, lo: int, hi: int)
    requires |list| > 0
    requires forall i :: 0 <= i < |list| ==> lo <= ViewsOf(list[i]) <= hi
    ensures lo <= AverageViews(list) <= hi
  {
    TotalBounds(list, lo, hi);
    RoundedBetween(|list|, TotalViews(list), AverageViews(list), lo, hi);
  }

  lemma RoundedBetween(n: int, t: int, r: int, lo: int, hi: int)
    requires n > 0 && n * lo <= t <= n * hi
    requires n * (2 * r - 1) <= 2 * t < n * (2 * r + 1)
    ensures lo <= r <= hi
  {
    assert n * (2 * hi + 1) == 2 * (n * hi) + n;
    assert n * (2 * lo - 1) == 2 * (n * lo) - n;
    if r > hi {
      MulMonotone(n, 2 * hi + 1, 2 * r - 1);
    }
    if r < lo {
      MulMonotone(n, 2 * r + 1, 2 * lo - 1);
    }
  }

  /** `articles.filter(a => a.id !== article.id).slice(0, 2)`. */
  function Related(list: seq<Article>, current: Article): (r: seq<Article>)
    ensures |r| <= 2
    ensures |r| == if |Without(list, current.id)| < 2 then |Without(list, current.id)| else 2
    ensures forall a :: a in r ==> a in list && a.id != current.id
    ensures r == Without(list, current.id)[..|r|]
  {
    var others := Without(list, current.id);
    WithoutMembers(list, current.id);
    var r := if |others| < 2 then others else others[..2];
    assert forall a :: a in r ==> a in others;
    r
  }

  /** The panel is shown when some other article exists (line 180), and it
      then lists at least one. */
  function ShowsRelated(list: seq<Article>, current: Article): (b: bool)
    ensures b <==> exists i :: 0 <= i < |list| && list[i].id != current.id
    ensures b <==> |Related(list, current)| > 0
  {
    var others := Without(list, current.id);
    if |others| > 0 then
      WithoutMembers(list, current.id);
      assert others[0] in list;
      true
    else
      assert Count(list, current.id) == |list|;
      CountAllMeansAll(list, current.id);
      false
  }

  lemma {:induction false} CountAllMeansAll(list: seq<Article>, id: int)
    requires Count(list, id) == |list|
    ensures forall i :: 0 <= i < |list| ==> list[i].id == id
  {
    if |list| > 0 {
      CountAllMeansAll(list[1..], id);
      assert forall i :: 1 <= i < |list| ==> list[i] == list[1..][i - 1];
    }
  }

  /** The related articles appear in the order of the collection. */
  lemma RelatedInOrder(list: seq<Article>, current: Article)
    ensures Subsequence(Related(list, current), list)
  {
    var others := Without(list, current.id);
    WithoutSubsequence(list, current.id);
    PrefixSubsequence(others, list, |Related(list, current)|);
  }

  lemma {:induction false} PrefixSubsequence<T>(s: seq<T>, t: seq<T>, k: nat)
    requires k <= |s| && Subsequence(s, t)
    ensures Subsequence(s[..k], t)
    decreases |t|
  {
    if k > 0 && |t| > 0 {
      if s[0] == t[0] {
        PrefixSubsequence(s[1..], t[1..], k - 1);
        assert s[..k][1..] == s[1..][..k - 1];
      } else {
        PrefixSubsequence(s, t[1..], k);
      }
    }
  }

  /** With unique ids, an article of the collection has as many related
      articles as there are others, up to two. */
  lemma RelatedCountUnique(list: seq<Article>, k: nat)
    requires UniqueIds(list) && k < |list|
    ensures |Related(list, list[k])| == if |list| - 1 < 2 then |list| - 1 else 2
  {
  }

  lemma {:induction false} CountUnique(list: seq<Article>, k: nat)
    requires UniqueIds(list) && k < |list|
    ensures Count(list, list[k].id) == 1
  {
    var id := list[k].id;
    var tail := list[1..];
    assert forall i, j :: 0 <= i < j < |tail| ==> tail[i] == list[i + 1] && tail[j] == list[j + 1];
    if k == 0 {
      assert forall i :: 0 <= i < |tail| ==> tail[i].id != id by {
        forall i | 0 <= i < |tail| ensures tail[i].id != id {
          assert tail[i] == list[i + 1];
        }
      }
    } else {
      CountUnique(tail, k - 1);
      assert tail[k - 1] == list[k];
    }
  }
}
