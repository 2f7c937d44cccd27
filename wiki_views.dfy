/**
 * The wiki's views (encyclopedia/views.py) over the entry store, a map
 * from title to markdown. Reading and writing entries goes through that
 * map; the directory listing that lists the entries is passed in where a
 * view needs it, since its order comes from the file store.
 */
module WikiViews {
  import opened Wrappers
  import opened Text
  import opened Fields
  import opened WikiForms

  datatype SearchResult =
    | ShowPage(title: string, contents: string)   // the query names an entry exactly
    | Results(query: string, titles: seq<string>)

  datatype WikiError =
    | NotFound(title: string)          // "<title> is not found in encylopedia."
    | AlreadyExists(title: string)     // "Entry already exists with title: <title>"
    | InvalidForm(error: FieldError)

  /** The entries whose title contains `q`, ignoring case, in listing order. */
  function Matching(entries: seq<string>, q: string): (r: seq<string>)
    ensures forall t :: t in r ==> t in entries && Contains(Lower(t), Lower(q))
    ensures forall t :: t in entries && Contains(Lower(t), Lower(q)) ==> t in r
    ensures |r| <= |entries|
  {
    if entries == [] then []
    else (if Contains(Lower(entries[0]), Lower(q)) then [entries[0]] else []) + Matching(entries[1..], q)
  }

  /** The search results keep the order of the listing. */
  lemma {:induction false} MatchingKeepsOrder(entries: seq<string>, q: string)
    ensures IsSubsequence(Matching(entries, q), entries)
  {
    if entries != [] {
      MatchingKeepsOrder(entries[1..], q);
      var r := Matching(entries, q);
      if Contains(Lower(entries[0]), Lower(q)) {
        assert r == [entries[0]] + Matching(entries[1..], q);
        assert r[1..] == Matching(entries[1..], q);
      } else {
        assert r == Matching(entries[1..], q);
        SubsequenceOfTail(r, entries);
      }
    }
  }

  /** Skipping one more element of `b` keeps `a` a subsequence. */
  lemma {:induction false} SubsequenceOfTail(a: seq<string>, b: seq<string>)
    requires |b| > 0 && IsSubsequence(a, b[1..])
    ensures IsSubsequence(a, b)
    decreases |a| + |b|
  {
    if |a| > 0 && a[0] == b[0] {
      SubsequenceDropFirst(a, b[1..]);
    }
  }

  /** Dropping the first element of `a` keeps it a subsequence. */
  lemma {:induction false} SubsequenceDropFirst(a: seq<string>, b: seq<string>)
    requires |a| > 0 && IsSubsequence(a, b)
    ensures IsSubsequence(a[1..], b)
    decreases |a| + |b|
  {
    if a[0] == b[0] {
      if |a| > 1 {
        SubsequenceOfTail(a[1..], b);
      }
    } else {
      SubsequenceDropFirst(a, b[1..]);
      if |a| > 1 {
        SubsequenceOfTail(a[1..], b);
      }
    }
  }

  /** `create`'s duplicate check: some entry has the same title ignoring case. */
  predicate DuplicateTitle(pages: map<string, string>, title: string)
  {
    exists k :: k in pages && Lower(k) == Lower(title)
  }

  /** Once a title is stored, creating it again in any letter case is refused. */
  lemma StoredTitleBlocksCreate(pages: map<string, string>, title: string, contents: string, again: string)
    requires Lower(again) == Lower(title)
    ensures DuplicateTitle(pages[title := contents], again)
  {
    assert title in pages[title := contents];
  }

  class Wiki {
    var pages: map<string, string>

    constructor (pages: map<string, string>)
      ensures this.pages == pages
    {
      this.pages := pages;
    }

    /** `entries` is what the directory listing returns: exactly the stored titles. */
    predicate Lists(entries: seq<string>)
      reads this
    {
      (forall t :: t in entries ==> t in pages) && (forall t :: t in pages ==> t in entries)
    }

    /** `contents`: the markdown stored under exactly `title`, or the error page. */
    function View(title: string): (r: Result<string, WikiError>)
      reads this
      ensures r.Ok? <==> title in pages
      ensures r.Ok? ==> r.value == pages[title]
      ensures r.Err? ==> r.error == NotFound(title)
    {
      if title in pages then Ok(pages[title]) else Err(NotFound(title))
    }

    /** `search`: the page itself when the query names an entry exactly, otherwise every entry containing it ignoring case. */
    function Search(q: string, entries: seq<string>): (r: SearchResult)
      requires Lists(entries)
      reads this
      ensures q in pages ==> r == ShowPage(q, pages[q])
      ensures q !in pages ==> r.Results? && r.query == q
      ensures r.Results? ==> forall t :: t in r.titles ==> t in pages && Contains(Lower(t), Lower(q))
      ensures r.Results? ==> forall t :: t in pages && Contains(Lower(t), Lower(q)) ==> t in r.titles
      ensures r.Results? ==> IsSubsequence(r.titles, entries)
    {
      if q in pages then ShowPage(q, pages[q])
      else
        MatchingKeepsOrder(entries, q);
        Results(q, Matching(entries, q))
    }

    /** `create` (POST): a valid form whose title is new ignoring case stores the page; nothing else changes. */
    method Create(form: NewPageForm) returns (r: Result<string, WikiError>)
      modifies this
      ensures CleanNewPage(form).Err? ==>
                r == Err(InvalidForm(CleanNewPage(form).error)) && pages == old(pages)
      ensures CleanNewPage(form).Ok? && DuplicateTitle(old(pages), CleanNewPage(form).value.title) ==>
                r == Err(AlreadyExists(CleanNewPage(form).value.title)) && pages == old(pages)
      ensures CleanNewPage(form).Ok? && !DuplicateTitle(old(pages), CleanNewPage(form).value.title) ==>
                && r == Ok(CleanNewPage(form).value.title)
                && CleanNewPage(form).value.title !in old(pages)
                && pages == old(pages)[CleanNewPage(form).value.title := CleanNewPage(form).value.contents]
    {
      match CleanNewPage(form)
      case Err(e) =>
        r := Err(InvalidForm(e));
      case Ok(page) =>
        if DuplicateTitle(pages, page.title) {
          r := Err(AlreadyExists(page.title));
        } else {
          pages := pages[page.title := page.contents];
          r := Ok(page.title);
        }
    }

    /** `edit` (GET): the form starts with the stored markdown, or empty when there is none. */
    function EditPrefill(title: string): (r: Option<string>)
      reads this
      ensures r.Some? <==> title in pages
      ensures r.Some? ==> r.value == pages[title]
    {
      if title in pages then Some(pages[title]) else None
    }

    /** `edit` (POST): the contents replace the whole entry; a title with no entry is created. */
    method Edit(title: string, form: EditForm) returns (r: Result<string, WikiError>)
      modifies this
      ensures CleanEdit(form).Err? ==> r == Err(InvalidForm(CleanEdit(form).error)) && pages == old(pages)
      ensures CleanEdit(form).Ok? ==>
                r == Ok(title) && pages == old(pages)[title := CleanEdit(form).value]
    {
      match CleanEdit(form)
      case Err(e) =>
        r := Err(InvalidForm(e));
      case Ok(contents) =>
        pages := pages[title := contents];
        r := Ok(title);
    }
  }
}
