/**
 * The wiki's forms (encyclopedia/forms.py): a new page has a required
 * title of at most 32 characters and required contents; an edit carries
 * only the contents, so it cannot rename a page. Neither form constrains
 * the characters of a title or the text of the contents any further.
 */
module WikiForms {
  import opened Wrappers
  import opened Text
  import opened Fields

  const PageTitleMax := 32

  /** The raw POST of `NewPageForm`. */
  datatype NewPageForm = NewPageForm(title: string, contents: string)

  /** The raw POST of `EditForm`. */
  datatype EditForm = EditForm(contents: string)

  datatype Page = Page(title: string, contents: string)

  /** `NewPageForm(request.POST).is_valid()` and its `cleaned_data`. */
  function CleanNewPage(f: NewPageForm): (r: Result<Page, FieldError>)
    ensures r.Ok? <==> CleanChar(f.title, true, Some(PageTitleMax)).Ok? && CleanChar(f.contents, true, None).Ok?
    ensures r.Ok? ==> r.value == Page(Strip(f.title), Strip(f.contents))
    ensures r.Ok? ==> r.value.title != [] && |r.value.title| <= PageTitleMax && r.value.contents != []
  {
    match CleanChar(f.title, true, Some(PageTitleMax))
    case Err(e) => Err(e)
    case Ok(title) =>
      match CleanChar(f.contents, true, None)
      case Err(e) => Err(e)
      case Ok(contents) => Ok(Page(title, contents))
  }

  /** `EditForm(request.POST).is_valid()` and its cleaned `contents`. */
  function CleanEdit(f: EditForm): (r: Result<string, FieldError>)
    ensures r.Ok? <==> CleanChar(f.contents, true, None).Ok?
    ensures r.Ok? ==> r.value == Strip(f.contents) && r.value != []
  {
    CleanChar(f.contents, true, None)
  }
}
