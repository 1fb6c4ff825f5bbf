/** The article collection of the portal and the transformations the
    component's handlers compute before they persist the whole list. */
module Articles {

  datatype Option<+T> = None | Some(value: T)

  /** An article as stored. `views` may be absent from a stored record. */
  datatype Article = Article(
    id: int,
    title: string,
    category: string,
    image: string,
    excerpt: string,
    content: string,
    readTime: string,
    views: Option<int>,
    createdAt: int)

  /** The editable fields of the article form. */
  datatype FormData = FormData(
    title: string,
    category: string,
    image: string,
    excerpt: string,
    content: string,
    readTime: string)

  /** `a.views || 0`: a missing counter reads as 0. */
  function ViewsOf(a: Article): (v: int)
    ensures a.views.None? ==> v == 0
    ensures a.views.Some? ==> v == a.views.value
  {
    match a.views
    case None => 0
    case Some(n) => n
  }

  /** The blank form: every text field empty, reading time "5 min". */
  function EmptyForm(): (f: FormData)
    ensures f.title == f.category == f.image == f.excerpt == f.content == ""
    ensures f.readTime == "5 min"
  {
    FormData("", "", "", "", "", "5 min")
  }

  /** The form as filled in when an article is opened for editing. */
  function FormOf(a: Article): (f: FormData)
  {
    FormData(a.title, a.category, a.image, a.excerpt, a.content, a.readTime)
  }

  /** `{ ...formData, id, views, createdAt }`. */
  function WithForm(f: FormData, id: int, views: Option<int>, createdAt: int): (a: Article)
  {
    Article(id, f.title, f.category, f.image, f.excerpt, f.content, f.readTime, views, createdAt)
  }

  /** Opening an article in the form and storing the form back gives the
      article carrying the form's fields and nothing else of its own. */
  lemma FormRoundTrip(a: Article, f: FormData)
    ensures FormOf(WithForm(f, a.id, a.views, a.createdAt)) == f
    ensures WithForm(FormOf(a), a.id, a.views, a.createdAt) == a
  {
  }

  /** The article a create submits: id and creation time are the clock. */
  function NewArticle(f: FormData, now: int): (a: Article)
    ensures FormOf(a) == f
    ensures a.id == now && a.createdAt == now && a.views == Some(0)
  {
    WithForm(f, now, Some(0), now)
  }

  /** The article an edit submits: the form's fields with the identity,
      counter and creation time of the article being edited. */
  function EditedArticle(editing: Article, f: FormData): (a: Article)
    ensures FormOf(a) == f
    ensures a.id == editing.id && a.views == editing.views && a.createdAt == editing.createdAt
  {
    WithForm(f, editing.id, editing.views, editing.createdAt)
  }

  /** Create: `[articleData, ...articles]`. */
  function Create(list: seq<Article>, f: FormData, now: int): (r: seq<Article>)
    ensures |r| == |list| + 1
    ensures r[0] == NewArticle(f, now) && r[1..] == list
  {
    [NewArticle(f, now)] + list
  }

  /** Edit: `articles.map(a => a.id === editing.id ? articleData : a)`. */
  function Edit(list: seq<Article>, editing: Article, f: FormData): (r: seq<Article>)
    ensures |r| == |list|
    ensures forall i :: 0 <= i < |list| && list[i].id == editing.id ==> r[i] == EditedArticle(editing, f)
    ensures forall i :: 0 <= i < |list| && list[i].id != editing.id ==> r[i] == list[i]
  {
    if |list| == 0 then []
    else
      var head := if list[0].id == editing.id then EditedArticle(editing, f) else list[0];
      [head] + Edit(list[1..], editing, f)
  }

  /** Submit: edit when an article is being edited, otherwise create. */
  function Submit(list: seq<Article>, editing: Option<Article>, f: FormData, now: int): (r: seq<Article>)
    ensures editing.Some? ==> r == Edit(list, editing.value, f)
    ensures editing.None? ==> r == Create(list, f, now)
  {
    match editing
    case Some(e) => Edit(list, e, f)
    case None => Create(list, f, now)
  }

  /** `articles.filter(a => a.id !== id)`: used by delete and by the
      related-articles list. */
  function Without(list: seq<Article>, id: int): (r: seq<Article>)
    ensures |r| + Count(list, id) == |list|
  {
    if |list| == 0 then []
    else if list[0].id == id then Without(list[1..], id)
    else [list[0]] + Without(list[1..], id)
  }

  /** The number of articles carrying `id`. */
  function Count(list: seq<Article>, id: int): (n: nat)
    ensures n <= |list|
    ensures n == 0 <==> forall i :: 0 <= i < |list| ==> list[i].id != id
  {
    if |list| == 0 then 0
    else (if list[0].id == id then 1 else 0) + Count(list[1..], id)
  }

  /** The view increment: `{ ...a, views: (a.views || 0) + 1 }` on each
      article carrying `id`. */
  function Bumped(a: Article): (b: Article)
    ensures b.views == Some(ViewsOf(a) + 1)
    ensures b.(views := a.views) == a
  {
    a.(views := Some(ViewsOf(a) + 1))
  }

  function IncrementViews(list: seq<Article>, id: int): (r: seq<Article>)
    ensures |r| == |list|
    ensures forall i :: 0 <= i < |list| && list[i].id == id ==> r[i] == Bumped(list[i])
    ensures forall i :: 0 <= i < |list| && list[i].id != id ==> r[i] == list[i]
  {
    if |list| == 0 then []
    else
      var head := if list[0].id == id then Bumped(list[0]) else list[0];
      [head] + IncrementViews(list[1..], id)
  }

  /** The ids of a list, in order. */
  function Ids(list: seq<Article>): (r: seq<int>)
    ensures |r| == |list|
    ensures forall i :: 0 <= i < |list| ==> r[i] == list[i].id
  {
    if |list| == 0 then [] else [list[0].id] + Ids(list[1..])
  }

  /** The intended invariant of the collection: an id names one article. */
  ghost predicate UniqueIds(list: seq<Article>)
  {
    forall i, j :: 0 <= i < j < |list| ==> list[i].id != list[j].id
  }

  /** `s` is `t` with some elements dropped and the rest in their order. */
  ghost predicate Subsequence<T>(s: seq<T>, t: seq<T>)
    decreases |t|
  {
    if |s| == 0 then true
    else if |t| == 0 then false
    else if s[0] == t[0] then Subsequence(s[1..], t[1..])
    else Subsequence(s, t[1..])
  }

  // ---- delete ----

  /** A delete keeps exactly the articles whose id differs. */
  lemma {:induction false} WithoutMembers(list: seq<Article>, id: int)
    ensures forall a :: a in Without(list, id) <==> a in list && a.id != id
  {
    if |list| > 0 {
      WithoutMembers(list[1..], id);
      assert list == [list[0]] + list[1..];
    }
  }

  lemma {:induction false} WithoutAbsent(list: seq<Article>, id: int)
    requires forall i :: 0 <= i < |list| ==> list[i].id != id
    ensures Without(list, id) == list
  {
    if |list| > 0 {
      WithoutAbsent(list[1..], id);
      assert list == [list[0]] + list[1..];
    }
  }

  /** Filtering distributes over concatenation, so each kept article keeps
      its place relative to the others. */
  lemma {:induction false} WithoutConcat(a: seq<Article>, b: seq<Article>, id: int)
    ensures Without(a + b, id) == Without(a, id) + Without(b, id)
  {
    if |a| == 0 {
      assert a + b == b;
    } else {
      var ab := a + b;
      assert ab[0] == a[0] && ab[1..] == a[1..] + b;
      WithoutConcat(a[1..], b, id);
      if a[0].id == id {
        calc {
          Without(ab, id);
          Without(a[1..] + b, id);
          Without(a[1..], id) + Without(b, id);
          Without(a, id) + Without(b, id);
        }
      } else {
        calc {
          Without(ab, id);
          [a[0]] + Without(a[1..] + b, id);
          [a[0]] + (Without(a[1..], id) + Without(b, id));
          ([a[0]] + Without(a[1..], id)) + Without(b, id);
          Without(a, id) + Without(b, id);
        }
      }
    }
  }

  lemma {:induction false} WithoutSubsequence(list: seq<Article>, id: int)
    ensures Subsequence(Without(list, id), list)
  {
    if |list| > 0 {
      WithoutSubsequence(list[1..], id);
      if list[0].id != id {
        var r := Without(list, id);
        assert r[0] == list[0] && r[1..] == Without(list[1..], id);
      } else {
        SubsequenceDropHead(Without(list[1..], id), list);
      }
    }
  }

  lemma SubsequenceDropHead<T>(s: seq<T>, t: seq<T>)
    requires |t| > 0 && Subsequence(s, t[1..])
    ensures Subsequence(s, t)
    decreases |s| + |t|
  {
    if |s| > 0 && s[0] == t[0] {
      SubsequenceShrink(s, t[1..]);
    }
  }

  /** Dropping the head of the shorter sequence keeps it a subsequence. */
  lemma SubsequenceShrink<T>(s: seq<T>, t: seq<T>)
    requires |s| > 0 && Subsequence(s, t)
    ensures Subsequence(s[1..], t)
    decreases |s| + |t|
  {
    if |t| > 0 {
      if s[0] == t[0] {
        SubsequenceDropHead(s[1..], t);
      } else {
        SubsequenceShrink(s, t[1..]);
        SubsequenceDropHead(s[1..], t);
      }
    }
  }

  lemma {:induction false} WithoutIdempotent(list: seq<Article>, id: int)
    ensures Without(Without(list, id), id) == Without(list, id)
  {
    var r := Without(list, id);
    WithoutMembers(list, id);
    forall i | 0 <= i < |r| ensures r[i].id != id {
      assert r[i] in r;
    }
    WithoutAbsent(r, id);
  }

  // ---- view increment ----

  lemma {:induction false} IncrementAbsent(list: seq<Article>, id: int)
    requires forall i :: 0 <= i < |list| ==> list[i].id != id
    ensures IncrementViews(list, id) == list
  {
  }

  // ---- the id invariant ----

  lemma {:induction false} IdsOfEdit(list: seq<Article>, editing: Article, f: FormData)
    ensures Ids(Edit(list, editing, f)) == Ids(list)
  {
  }

  lemma {:induction false} IdsOfIncrement(list: seq<Article>, id: int)
    ensures Ids(IncrementViews(list, id)) == Ids(list)
  {
  }

  /** Create keeps ids unique exactly when the clock value is not already an id. */
  lemma CreateUnique(list: seq<Article>, f: FormData, now: int)
    requires UniqueIds(list)
    ensures UniqueIds(Create(list, f, now)) <==> now !in Ids(list)
  {
  }

  lemma EditUnique(list: seq<Article>, editing: Article, f: FormData)
    requires UniqueIds(list)
    ensures UniqueIds(Edit(list, editing, f))
  {
  }

  lemma IncrementUnique(list: seq<Article>, id: int)
    requires UniqueIds(list)
    ensures UniqueIds(IncrementViews(list, id))
  {
  }

  lemma {:induction false} WithoutUnique(list: seq<Article>, id: int)
    requires UniqueIds(list)
    ensures UniqueIds(Without(list, id))
  {
    if |list| > 0 {
      assert UniqueIds(list[1..]) by {
        forall i, j | 0 <= i < j < |list[1..]| ensures list[1..][i].id != list[1..][j].id {
          assert list[1..][i] == list[i + 1] && list[1..][j] == list[j + 1];
        }
      }
      WithoutUnique(list[1..], id);
      if list[0].id != id {
        var rest := Without(list[1..], id);
        WithoutMembers(list[1..], id);
        var r := [list[0]] + rest;
        forall i, j | 0 <= i < j < |r| ensures r[i].id != r[j].id {
          if i == 0 {
            assert r[j] in rest;
            assert r[j] in list[1..];
            var k :| 0 <= k < |list[1..]| && list[1..][k] == r[j];
            assert list[k + 1] == r[j];
          }
        }
      }
    }
  }

  /** With unique ids an edit changes at most the one edited article. */
  lemma EditOne(list: seq<Article>, k: nat, f: FormData)
    requires UniqueIds(list) && k < |list|
    ensures Edit(list, list[k], f) == list[k := EditedArticle(list[k], f)]
  {
  }
}
