# Article portal state, modelled in Dafny

The portal is a single-page news site with an admin dashboard. Its main
component keeps the whole article collection in memory. Every change
(create, edit, delete, view increment) computes a new full list and stores
it. The component also keeps an admin mode with three values: the public
site, the login screen and the dashboard. The dashboard is entered with a
fixed password.

This project models that state:

- `articles.dfy`, module `Articles`: the `Article` and `FormData` records
  and the list transformations the handlers compute. These are create
  (prepend), edit (replace by id, keeping id, counter and creation time),
  delete (filter by id) and view increment (map by id, a missing counter
  read as 0). `FormOf` fills the form from an article (the edit handler)
  and `WithForm` spreads a form into an article (the submit handler). It
  also holds the unique-id invariant and the lemmas showing that each
  transformation keeps it.
- `stats.dfy`, module `Stats`: the read-only views. These are total views
  (`TotalViews`, the `reduce` of the statistics tab), the rounded average
  per article and the "related articles" panel (the
  other articles, first two only).
- `app.dfy`, module `App`: every state slot of the component as an
  `AppState` value. A pure `Step` function gives the effect of each handler
  on the whole state, and `Run` applies a sequence of handlers. The class
  `App` has one field per slot and one method per handler. Each
  handler method's postcondition ties its new state to `Step` of its old
  state. The two exceptions are `SaveArticles` and `IncrementViews`. Both
  are called by other handlers and have no event of their own, so their
  postconditions give the new state directly as the old state with a new
  collection. Lemmas over
  `Step` and `Run` state the admin-mode properties and the id invariant.

`isAdmin: boolean | null` is the datatype `Mode`: `false` is `Frontend`,
`null` is `Login` and `true` is `Dashboard`. A stored `views` that may be
absent is an `Option<int>`. The clock `Date.now()` is a parameter `now`.
What the browser's storage returns for the key `articles` is a parameter of
type `Stored`: missing, a list that parses, or text that does not parse.

The handlers do not check the mode themselves; the interface only offers
each button in some views. So `Step` accepts every event in every state. The
lemma `DashboardNeedsPassword` still holds: any run that ends in the
dashboard contains a login submitted while the fixed password was typed.

## Model

| member | source | states |
|---|---|---|
| `Articles.ViewsOf` | app/page.tsx:717 | a missing counter reads as 0, a present one as its value |
| `Articles.EmptyForm` | app/page.tsx:587-594 | the blank form has every text field empty and reading time "5 min" |
| `Articles.FormRoundTrip` | app/page.tsx:697-704 | filling the form from an article and building an article back from the form, with the same id, counter and creation time, gives the original article; in the other direction the form is recovered |
| `Articles.NewArticle` | app/page.tsx:667-672 | a created article carries the form's fields, id and creation time equal to the clock, and 0 views |
| `Articles.EditedArticle` | app/page.tsx:667-672 | an edited article carries the form's fields and the id, counter and creation time of the article being edited |
| `Articles.Create` | app/page.tsx:678 | the list grows by one; its head is the new article and its tail is exactly the old list |
| `Articles.Edit` | app/page.tsx:676 | the length is unchanged; every article with the edited id becomes the edited article; every other article stays as it was, at its position |
| `Articles.Submit` | app/page.tsx:666-681 | submitting edits when an article is being edited and creates otherwise |
| `Articles.Without` | app/page.tsx:710 | the length of the result is the old length minus the number of articles with that id |
| `Articles.WithoutMembers` | app/page.tsx:710 | the result holds exactly the articles of the list whose id differs |
| `Articles.Bumped` | app/page.tsx:717 | the counter becomes the old counter (missing read as 0) plus one; every other field is unchanged |
| `Articles.IncrementViews` | app/page.tsx:715-720 | the length is unchanged; every article with the id is bumped; every other article is unchanged at its position |
| `Articles.WithoutAbsent` | app/page.tsx:710 | deleting an id no article carries leaves the list unchanged |
| `Articles.WithoutConcat` | app/page.tsx:710 | the filter distributes over concatenation, so the kept articles stay in their relative order |
| `Articles.WithoutSubsequence` | app/page.tsx:710 | the result of a delete is a subsequence of the old list |
| `Articles.WithoutIdempotent` | app/page.tsx:710 | deleting the same id twice is the same as deleting it once |
| `Articles.IncrementAbsent` | app/page.tsx:716-718 | incrementing an id no article carries leaves the list unchanged |
| `Articles.IdsOfEdit` | app/page.tsx:676 | an edit leaves the sequence of ids unchanged |
| `Articles.IdsOfIncrement` | app/page.tsx:716-718 | a view increment leaves the sequence of ids unchanged |
| `Articles.CreateUnique` | app/page.tsx:669-678 | on a list with unique ids, a create keeps ids unique if and only if the clock value is not already an id |
| `Articles.EditUnique` | app/page.tsx:676 | an edit keeps ids unique |
| `Articles.IncrementUnique` | app/page.tsx:716-718 | a view increment keeps ids unique |
| `Articles.WithoutUnique` | app/page.tsx:710 | a delete keeps ids unique |
| `Articles.EditOne` | app/page.tsx:676 | with unique ids, editing an article of the list replaces that one position and nothing else |
| `Stats.TotalConcat` | app/page.tsx:520 | the total of views of two lists joined is the sum of their totals |
| `Stats.TotalBounds` | app/page.tsx:520 | when every counter lies in [lo, hi], the total lies in [n*lo, n*hi] |
| `Stats.TotalAfterIncrement` | app/page.tsx:715-720 | one view increment raises the total by exactly the number of articles with that id |
| `Stats.TotalAfterDelete` | app/page.tsx:710 | a delete lowers the total by exactly the views of the deleted articles |
| `Stats.RoundedQuotient` | app/page.tsx:540 | the result r satisfies n*(2r-1) <= 2*total < n*(2r+1): it is total/n rounded to the nearest integer, halves up |
| `Stats.RoundedQuotientUnique` | app/page.tsx:540 | that rounding condition determines a single integer |
| `Stats.AverageViews` | app/page.tsx:540 | 0 for an empty collection, otherwise total views over the count rounded half up |
| `Stats.AverageBounds` | app/page.tsx:540 | the average lies between the smallest and the largest counter |
| `Stats.Related` | app/page.tsx:184 | at most two articles; exactly min(2, number of others); none with the current id; all from the list; a prefix of the other articles |
| `Stats.ShowsRelated` | app/page.tsx:180 | the panel is shown if and only if some article has a different id, and then it lists at least one article |
| `Stats.RelatedInOrder` | app/page.tsx:184 | the related articles are a subsequence of the collection, so they keep list order |
| `Stats.RelatedCountUnique` | app/page.tsx:180-184 | with unique ids, an article of the collection has min(2, n-1) related articles |
| `App.Initial` | app/page.tsx:576-594 | the first state: public site, empty password, no articles, nothing selected, loading, the articles tab, form hidden, no article being edited, blank form |
| `App.SeedArticle` | app/page.tsx:607-619 | the seeded article carries the given text, id and creation time from the clock, and 1250 views |
| `App.LoadedArticles` | app/page.tsx:601-629 | after load the collection is the stored list, the seed when nothing is stored, or empty when the stored text does not parse |
| `App.EnterDashboard` | app/page.tsx:652-659 | one handler enters the dashboard only by a login while the fixed password is typed, and that login clears the password |
| `App.DashboardNeedsPassword` | app/page.tsx:652-659 | any run that starts outside the dashboard and ends in it contains a login submitted while the fixed password was typed |
| `App.WrongPassword` | app/page.tsx:652-659 | a login with any other password changes no state slot |
| `App.StepKeepsUniqueIds` | app/page.tsx:666-720 | every handler keeps ids unique, given that a create's clock value is not already an id and that a loaded list has unique ids |
| `App.OpenArticleViews` | app/page.tsx:71-74 | with unique ids, opening an article raises its counter and the total by one; the article shown is the copy taken before the increment |
| `App.App.constructor` | app/page.tsx:576-594 | the fields start as the initial state |
| `App.App.SaveArticles` | app/page.tsx:642-650 | the collection becomes the new list; nothing else changes |
| `App.App.LoadArticles` | app/page.tsx:601-629 | the collection becomes the loaded list and loading ends; nothing else changes |
| `App.App.OpenLogin` | app/page.tsx:227 | the mode becomes the login screen; nothing else changes |
| `App.App.BackToFrontend` | app/page.tsx:294 | the mode becomes the public site; nothing else changes |
| `App.App.SetPassword` | app/page.tsx:278 | the typed password replaces the old one; nothing else changes |
| `App.App.HandleLogin` | app/page.tsx:652-659 | with password "admin123" the mode becomes the dashboard and the password is cleared; with any other password nothing changes |
| `App.App.HandleLogout` | app/page.tsx:661-664 | the mode becomes the public site and the tab becomes "articles"; nothing else changes |
| `App.App.SetActiveTab` | app/page.tsx:370 | the tab becomes the chosen one; nothing else changes |
| `App.App.ShowArticleForm` | app/page.tsx:393 | the form is shown; nothing else changes |
| `App.App.HandleEditArticle` | app/page.tsx:695-706 | the article becomes the one being edited, the form holds its fields and is shown; nothing else changes |
| `App.App.SetFormData` | app/page.tsx:437 | the form becomes the typed form; nothing else changes |
| `App.App.CancelArticleForm` | app/page.tsx:495-499 | the form is hidden and blank and no article is being edited; the collection is unchanged |
| `App.App.HandleSubmitArticle` | app/page.tsx:666-693 | the collection becomes the submitted list (one longer with the new article at the head, or the same length after an edit); then the form is hidden, no article is being edited and the form is blank with "5 min" |
| `App.App.HandleDeleteArticle` | app/page.tsx:708-713 | the collection keeps exactly the articles with another id; nothing else changes |
| `App.App.IncrementViews` | app/page.tsx:715-720 | the collection becomes its view-incremented copy and the total rises by the number of articles with the id; nothing else changes |
| `App.App.SelectArticle` | app/page.tsx:71-74 | the clicked article is selected and its views are incremented; nothing else changes |
| `App.App.CloseArticle` | app/page.tsx:218 | no article is selected; nothing else changes |

## Left out

- `app/api/articles/route.ts` and `app/api/config/route.ts`: environment variables, HTTP calls to the remote key-value store and JSON responses. They only pass data through.
- `localStorage`, `JSON.parse` and `JSON.stringify`. The value read is the parameter `Stored`. `saveArticles` is an assignment. A failed `setItem` keeps the old list and shows an alert; this is not modelled, and neither is the case where the write of the seeded list fails after it was set.
- `alert`, `console.error` and `window.confirm`. Only the confirmed branch of delete is modelled.
- `loadStats` and the unused `stats` slot: they store a value that nothing reads.
- All rendering, the `AdSlot` placeholders and `toLocaleString`. The choice of view by mode (`app/page.tsx:722-756`) is the meaning of `Mode`.
- Ad configuration. `Article` has no ad-slot field in this component, and the config route stores an opaque object.
- Concurrent writers and lost updates: the model is sequential.
- Stats.AverageViews: computes `Math.round(total / n)` exactly, not in floating point. The two agree while the absolute value of the total is below 2^52. Above that they can differ: with total 6755399441055745 and n = 3 the floating-point quotient rounds to 2251799813685248.5, and `Math.round` then gives one more than the exact rounding.
- Articles.Bumped: ids, counters and totals are JavaScript doubles in the source, but the model uses unbounded integers. So `(a.views || 0) + 1` is exact only while the counter is below 2^53. The "+1 exactly" of `Articles.IncrementViews` and `Stats.TotalAfterIncrement` holds in the source only in that range.
- Stats.TotalViews: the `reduce` is an exact integer sum in the model. In the source it is exact only while every partial sum stays below 2^53 in absolute value.
- Articles.ViewsOf: a stored counter that is `NaN` or not a whole number is not modelled; `Option<int>` covers only missing and integer counters.
- App.App.HandleSubmitArticle: the source reads the clock twice, once for `id` and once for `createdAt`. The model takes one value `now` for both, and the two readings can differ by a millisecond in the source.
- Articles.NewArticle: its `id == now && createdAt == now` is the same single clock reading for the two `Date.now()` calls.
- Articles.Create: its new head carries `id` and `createdAt` from a single clock reading `now`, for the same reason.
- App.SeedArticle: its id and creation time come from a single clock reading, where the source reads `Date.now()` twice.
- The per-keystroke form updates (`app/page.tsx:437-482`) are one method, `SetFormData`, that takes the whole new form.
