/** The state of the portal's main component: the article collection, the
    admin mode and the dashboard's form, changed by the event handlers.
    `Step` says what each handler does to the whole state; the class `App`
    holds the state slots as fields and has one method per handler. */
module App {
  import opened Articles
  import Stats

  /** `isAdmin: boolean | null`: false shows the public site, null the
      login screen, true the dashboard. */
  datatype Mode = Frontend | Login | Dashboard

  /** What the browser's storage yields for the key "articles": nothing (or
      an empty string), a list that parses, or text that does not parse. */
  datatype Stored = Missing | Present(list: seq<Article>) | Corrupt

  /** The one password the login accepts. */
  const AdminPassword: string := "admin123"

  /** The tab the dashboard opens on. */
  const ArticlesTab: string := "articles"

  /** The reading counter the seeded article starts with. */
  const SeedViews: int := 1250

  /** Every state slot of the component. */
  datatype AppState = AppState(
    isAdmin: Mode,
    password: string,
    articles: seq<Article>,
    selectedArticle: Option<Article>,
    loading: bool,
    activeTab: string,
    showArticleForm: bool,
    editingArticle: Option<Article>,
    formData: FormData)

  /** The slots as first rendered. */
  function Initial(): (s: AppState)
    ensures s.isAdmin == Frontend && s.password == "" && s.articles == []
    ensures s.selectedArticle.None? && s.loading && s.activeTab == ArticlesTab
    ensures !s.showArticleForm && s.editingArticle.None? && s.formData == EmptyForm()
  {
    AppState(Frontend, "", [], None, true, ArticlesTab, false, None, EmptyForm())
  }

  /** The article written when storage holds none: the given text, id and
      creation time from the clock, and a preset counter. */
  function SeedArticle(text: FormData, now: int): (a: Article)
    ensures FormOf(a) == text && a.id == now && a.createdAt == now && a.views == Some(SeedViews)
  {
    WithForm(text, now, Some(SeedViews), now)
  }

  /** The collection after loading: the stored list, the seed when nothing
      is stored, nothing when the stored text does not parse. */
  function LoadedArticles(stored: Stored, seed: FormData, now: int): (r: seq<Article>)
    ensures stored.Present? ==> r == stored.list
    ensures stored.Missing? ==> r == [SeedArticle(seed, now)]
    ensures stored.Corrupt? ==> r == []
  {
    match stored
    case Missing => [SeedArticle(seed, now)]
    case Present(list) => list
    case Corrupt => []
  }

  /** What the user can do, one constructor per handler. */
  datatype Event =
    | Load(stored: Stored, seed: FormData, now: int)
    | OpenLogin
    | BackToFrontend
    | TypePassword(typed: string)
    | SubmitLogin
    | Logout
    | SelectTab(tab: string)
    | OpenArticleForm
    | StartEdit(article: Article)
    | TypeForm(form: FormData)
    | CancelForm
    | SubmitForm(now: int)
    | DeleteArticle(id: int)
    | OpenArticle(article: Article)
    | CloseArticle

  /** The state after one handler runs. */
  function Step(s: AppState, e: Event): (t: AppState)
  {
    match e
    case Load(stored, seed, now) =>
      s.(articles := LoadedArticles(stored, seed, now), loading := false)
    case OpenLogin => s.(isAdmin := Login)
    case BackToFrontend => s.(isAdmin := Frontend)
    case TypePassword(p) => s.(password := p)
    case SubmitLogin =>
      if s.password == AdminPassword then s.(isAdmin := Dashboard, password := "") else s
    case Logout => s.(isAdmin := Frontend, activeTab := ArticlesTab)
    case SelectTab(t) => s.(activeTab := t)
    case OpenArticleForm => s.(showArticleForm := true)
    case StartEdit(a) => s.(editingArticle := Some(a), formData := FormOf(a), showArticleForm := true)
    case TypeForm(f) => s.(formData := f)
    case CancelForm => s.(showArticleForm := false, editingArticle := None, formData := EmptyForm())
    case SubmitForm(now) =>
      s.(articles := Submit(s.articles, s.editingArticle, s.formData, now),
         showArticleForm := false, editingArticle := None, formData := EmptyForm())
    case DeleteArticle(id) => s.(articles := Without(s.articles, id))
    case OpenArticle(a) =>
      s.(selectedArticle := Some(a), articles := Articles.IncrementViews(s.articles, a.id))
    case CloseArticle => s.(selectedArticle := None)
  }

  /** The state after a sequence of handlers, in order. */
  function Run(s: AppState, es: seq<Event>): (t: AppState)
    decreases |es|
  {
    if |es| == 0 then s else Run(Step(s, es[0]), es[1..])
  }

  lemma {:induction false} RunAppend(s: AppState, es: seq<Event>, e: Event)
    ensures Run(s, es + [e]) == Step(Run(s, es), e)
    decreases |es|
  {
    if |es| > 0 {
      assert (es + [e])[1..] == es[1..] + [e];
      RunAppend(Step(s, es[0]), es[1..], e);
    }
  }

  /** One handler enters the dashboard only by a login with the fixed
      password, and that login clears the password. */
  lemma EnterDashboard(s: AppState, e: Event)
    requires s.isAdmin != Dashboard && Step(s, e).isAdmin == Dashboard
    ensures e == SubmitLogin && s.password == AdminPassword && Step(s, e).password == ""
  {
  }

  /** Any run that starts outside the dashboard and ends in it contains a
      login submitted while the fixed password was typed. */
  lemma {:induction false} DashboardNeedsPassword(s: AppState, es: seq<Event>)
    requires s.isAdmin != Dashboard && Run(s, es).isAdmin == Dashboard
    ensures exists i :: 0 <= i < |es| && es[i] == SubmitLogin && Run(s, es[..i]).password == AdminPassword
    decreases |es|
  {
    assert |es| > 0;
    var n := |es| - 1;
    var before := Run(s, es[..n]);
    assert es == es[..n] + [es[n]];
    RunAppend(s, es[..n], es[n]);
    if before.isAdmin == Dashboard {
      DashboardNeedsPassword(s, es[..n]);
      var i :| 0 <= i < n && es[..n][i] == SubmitLogin && Run(s, es[..n][..i]).password == AdminPassword;
      assert es[..n][..i] == es[..i];
    } else {
      EnterDashboard(before, es[n]);
    }
  }

  /** A wrong password changes nothing at all. */
  lemma WrongPassword(s: AppState)
    requires s.password != AdminPassword
    ensures Step(s, SubmitLogin) == s
  {
  }

  /** When the clock does not repeat an id, and loaded lists have unique ids,
      every handler keeps the ids of the collection unique. */
  ghost predicate FreshIds(s: AppState, e: Event)
  {
    match e
    case SubmitForm(now) => s.editingArticle.Some? || now !in Ids(s.articles)
    case Load(stored, _, _) => stored.Present? ==> UniqueIds(stored.list)
    case _ => true
  }

  lemma StepKeepsUniqueIds(s: AppState, e: Event)
    requires UniqueIds(s.articles) && FreshIds(s, e)
    ensures UniqueIds(Step(s, e).articles)
  {
    match e
    case SubmitForm(now) =>
      if s.editingArticle.Some? {
        EditUnique(s.articles, s.editingArticle.value, s.formData);
      } else {
        CreateUnique(s.articles, s.formData, now);
      }
    case DeleteArticle(id) => WithoutUnique(s.articles, id);
    case OpenArticle(a) => IncrementUnique(s.articles, a.id);
    case _ =>
  }

  /** Opening an article raises the total of views by one when ids are
      unique and the article is in the collection; the article shown is the
      copy taken before the increment. */
  lemma OpenArticleViews(s: AppState, k: nat)
    requires UniqueIds(s.articles) && k < |s.articles|
    ensures var t := Step(s, OpenArticle(s.articles[k]));
      && Stats.TotalViews(t.articles) == Stats.TotalViews(s.articles) + 1
      && ViewsOf(t.articles[k]) == ViewsOf(s.articles[k]) + 1
      && t.selectedArticle == Some(s.articles[k])
  {
    var a := s.articles[k];
    var r := Articles.IncrementViews(s.articles, a.id);
    assert Step(s, OpenArticle(a)) == s.(selectedArticle := Some(a), articles := r);
    assert r[k] == Bumped(a);
    Stats.TotalAfterIncrement(s.articles, a.id);
    Stats.CountUnique(s.articles, k);
  }

  /** The component, with one field per state slot. */
  class App {
    var isAdmin: Mode
    var password: string
    var articles: seq<Article>
    var selectedArticle: Option<Article>
    var loading: bool
    var activeTab: string
    var showArticleForm: bool
    var editingArticle: Option<Article>
    var formData: FormData

    function State(): (s: AppState)
      reads this
    {
      AppState(isAdmin, password, articles, selectedArticle, loading, activeTab,
               showArticleForm, editingArticle, formData)
    }

    constructor ()
      ensures State() == Initial()
    {
      isAdmin := Frontend;
      password := "";
      articles := [];
      selectedArticle := None;
      loading := true;
      activeTab := ArticlesTab;
      showArticleForm := false;
      editingArticle := None;
      formData := EmptyForm();
    }

    /** Persisting replaces the collection (the write to storage is not modelled). */
    method SaveArticles(newArticles: seq<Article>)
      modifies this
      ensures State() == old(State()).(articles := newArticles)
    {
      articles := newArticles;
    }

    /** The mount effect: read the stored collection, or seed it. */
    method LoadArticles(stored: Stored, seed: FormData, now: int)
      modifies this
      ensures State() == Step(old(State()), Load(stored, seed, now))
      ensures !loading
    {
      match stored {
        case Present(list) =>
          articles := list;
        case Missing =>
          var defaults := [SeedArticle(seed, now)];
          articles := defaults;
        case Corrupt =>
          articles := [];
      }
      loading := false;
    }

    method OpenLogin()
      modifies this
      ensures State() == Step(old(State()), Event.OpenLogin)
    {
      isAdmin := Login;
    }

    method BackToFrontend()
      modifies this
      ensures State() == Step(old(State()), Event.BackToFrontend)
    {
      isAdmin := Frontend;
    }

    method SetPassword(typed: string)
      modifies this
      ensures State() == Step(old(State()), TypePassword(typed))
    {
      password := typed;
    }

    method HandleLogin()
      modifies this
      ensures State() == Step(old(State()), SubmitLogin)
      ensures old(password) == AdminPassword ==> isAdmin == Dashboard && password == ""
      ensures old(password) != AdminPassword ==> isAdmin == old(isAdmin) && password == old(password)
    {
      if password == AdminPassword {
        isAdmin := Dashboard;
        password := "";
      }
    }

    method HandleLogout()
      modifies this
      ensures State() == Step(old(State()), Logout)
      ensures isAdmin == Frontend && activeTab == ArticlesTab
    {
      isAdmin := Frontend;
      activeTab := ArticlesTab;
    }

    method SetActiveTab(tab: string)
      modifies this
      ensures State() == Step(old(State()), SelectTab(tab))
    {
      activeTab := tab;
    }

    method ShowArticleForm()
      modifies this
      ensures State() == Step(old(State()), OpenArticleForm)
    {
      showArticleForm := true;
    }

    method HandleEditArticle(article: Article)
      modifies this
      ensures State() == Step(old(State()), StartEdit(article))
      ensures editingArticle == Some(article) && formData == FormOf(article) && showArticleForm
    {
      editingArticle := Some(article);
      formData := FormData(article.title, article.category, article.image,
                           article.excerpt, article.content, article.readTime);
      showArticleForm := true;
    }

    method SetFormData(form: FormData)
      modifies this
      ensures State() == Step(old(State()), TypeForm(form))
    {
      formData := form;
    }

    method CancelArticleForm()
      modifies this
      ensures State() == Step(old(State()), CancelForm)
    {
      showArticleForm := false;
      editingArticle := None;
      formData := EmptyForm();
    }

    method HandleSubmitArticle(now: int)
      modifies this
      ensures State() == Step(old(State()), SubmitForm(now))
      ensures old(editingArticle).None? ==>
                |articles| == |old(articles)| + 1 &&
                articles[0] == NewArticle(old(formData), now) && articles[1..] == old(articles)
      ensures old(editingArticle).Some? ==> |articles| == |old(articles)|
      ensures !showArticleForm && editingArticle.None? && formData == EmptyForm()
    {
      var articleData := WithForm(formData,
        if editingArticle.Some? then editingArticle.value.id else now,
        if editingArticle.Some? then editingArticle.value.views else Some(0),
        if editingArticle.Some? then editingArticle.value.createdAt else now);
      var newArticles: seq<Article>;
      if editingArticle.Some? {
        newArticles := Edit(articles, editingArticle.value, formData);
      } else {
        newArticles := [articleData] + articles;
      }
      SaveArticles(newArticles);
      showArticleForm := false;
      editingArticle := None;
      formData := EmptyForm();
    }

    /** The confirmed branch of the delete button. */
    method HandleDeleteArticle(id: int)
      modifies this
      ensures State() == Step(old(State()), DeleteArticle(id))
      ensures forall a :: a in articles <==> a in old(articles) && a.id != id
    {
      WithoutMembers(articles, id);
      SaveArticles(Without(articles, id));
    }

    method IncrementViews(articleId: int)
      modifies this
      ensures State() == old(State()).(articles := Articles.IncrementViews(old(articles), articleId))
      ensures Stats.TotalViews(articles) == Stats.TotalViews(old(articles)) + Count(old(articles), articleId)
    {
      Stats.TotalAfterIncrement(articles, articleId);
      SaveArticles(Articles.IncrementViews(articles, articleId));
    }

    /** Clicking an article card or a related article. */
    method SelectArticle(article: Article)
      modifies this
      ensures State() == Step(old(State()), OpenArticle(article))
    {
      selectedArticle := Some(article);
      IncrementViews(article.id);
    }

    method CloseArticle()
      modifies this
      ensures State() == Step(old(State()), Event.CloseArticle)
    {
      selectedArticle := None;
    }
  }
}
