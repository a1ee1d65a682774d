/**
 * The category table: a client-side list of categories with a name search,
 * a dialog that adds a category or edits one, and a page counter.
 *
 * Reading an uploaded file as a data URL is the parameter `dataUrl`; the
 * chosen file is represented by its name.
 */
module Categories {
  import opened Wrappers
  import opened Text
  import opened Lists
  import opened Paging

  datatype Category = Category(sl: string, categoryName: string, mainPhoto: string, coverPhoto: string)

  /** `filteredData`: the categories whose name contains the query, ignoring case. */
  function SearchCategories(categories: seq<Category>, query: string): seq<Category>
  {
    if query == "" then categories
    else Filter(categories, (c: Category) => IncludesIgnoringCase(c.categoryName, query))
  }

  /** A category is kept iff its name matches; the empty query returns the list itself. */
  lemma SearchKeeps(categories: seq<Category>, query: string)
    ensures var r := SearchCategories(categories, query);
      && (forall i :: 0 <= i < |categories| ==>
            (categories[i] in r <==> query == "" || IncludesIgnoringCase(categories[i].categoryName, query)))
      && (forall i :: 0 <= i < |r| ==> r[i] in categories)
      && (query == "" ==> r == categories)
  {
  }

  /** An edit save: the form's fields replace those of every entry with the edited serial. */
  function EditBySl(categories: seq<Category>, sl: string, name: string, main: string, cover: string): seq<Category>
  {
    Replace(categories, (c: Category) => c.sl == sl,
            (c: Category) => c.(categoryName := name, mainPhoto := main, coverPhoto := cover))
  }

  /** An add save: a new entry numbered one past the current length, at the end. */
  function Append(categories: seq<Category>, name: string, main: string, cover: string): seq<Category>
  {
    categories + [Category(Decimal(|categories| + 1), name, main, cover)]
  }

  /** An edit changes the three fields of the matching entries only, never a serial. */
  lemma EditExact(categories: seq<Category>, sl: string, name: string, main: string, cover: string)
    ensures var r := EditBySl(categories, sl, name, main, cover);
      && |r| == |categories|
      && forall i :: 0 <= i < |categories| ==>
           r[i].sl == categories[i].sl &&
           r[i] == if categories[i].sl == sl then Category(sl, name, main, cover) else categories[i]
  {
  }

  /** An add grows the list by one entry at the end and keeps the rest. */
  lemma AppendExact(categories: seq<Category>, name: string, main: string, cover: string)
    ensures var r := Append(categories, name, main, cover);
      && |r| == |categories| + 1 && r[..|categories|] == categories
      && r[|categories|] == Category(Decimal(|categories| + 1), name, main, cover)
      && DigitsValue(r[|categories|].sl) == |categories| + 1
  {
    DecimalRoundTrip(|categories| + 1);
  }

  /**
   * Serials are distinct, and none is the decimal rendering of a number past
   * the length, so the next one an add hands out is still free.
   */
  ghost predicate Keyed(categories: seq<Category>)
  {
    && (forall i, j :: 0 <= i < j < |categories| ==> categories[i].sl != categories[j].sl)
    && (forall i, n: nat :: 0 <= i < |categories| && n > |categories| ==> categories[i].sl != Decimal(n))
  }

  lemma DecimalInjective(a: nat, b: nat)
    requires Decimal(a) == Decimal(b)
    ensures a == b
  {
    DecimalRoundTrip(a);
    DecimalRoundTrip(b);
  }

  /** An add keeps serials distinct. */
  lemma AppendKeyed(categories: seq<Category>, name: string, main: string, cover: string)
    requires Keyed(categories)
    ensures Keyed(Append(categories, name, main, cover))
  {
    var r := Append(categories, name, main, cover);
    forall i, n: nat | 0 <= i < |r| && n > |r| ensures r[i].sl != Decimal(n) {
      if i == |categories| && r[i].sl == Decimal(n) {
        DecimalInjective(|categories| + 1, n);
      }
    }
  }

  /** An edit keeps serials distinct. */
  lemma EditKeyed(categories: seq<Category>, sl: string, name: string, main: string, cover: string)
    requires Keyed(categories)
    ensures Keyed(EditBySl(categories, sl, name, main, cover))
  {
  }

  /** With distinct serials an edit changes exactly one entry, or none. */
  lemma EditOne(categories: seq<Category>, k: nat, name: string, main: string, cover: string)
    requires Keyed(categories) && k < |categories|
    ensures var r := EditBySl(categories, categories[k].sl, name, main, cover);
      r == categories[k := categories[k].(categoryName := name, mainPhoto := main, coverPhoto := cover)]
  {
  }

  /** The page total shown: `max(1, ceil(rows / pageSize))`. */
  function PageTotal(rows: nat, pageSize: nat): (r: int)
    requires pageSize > 0
  {
    var pages := CeilDiv(rows, pageSize);
    if pages < 1 then 1 else pages
  }

  /** The total is at least one page, exactly one for no rows, and the pages hold all rows. */
  lemma PageTotalBounds(rows: nat, pageSize: nat)
    requires pageSize > 0
    ensures PageTotal(rows, pageSize) >= 1
    ensures rows == 0 ==> PageTotal(rows, pageSize) == 1
    ensures rows <= PageTotal(rows, pageSize) * pageSize
    ensures rows > 0 ==> (PageTotal(rows, pageSize) - 1) * pageSize < rows
  {
    CeilDivBounds(rows, pageSize);
    CeilDivSign(rows, pageSize);
  }

  /** The state of the category page: the list, the dialog and its form. */
  class CategoryPage {
    var categories: seq<Category>
    var pageSize: nat
    var pageIndex: nat
    var globalFilter: string
    var isDialogOpen: bool
    var isEditMode: bool
    var editingCategory: Option<Category>
    var categoryName: string
    var mainPhoto: string
    var coverPhoto: string
    var mainPhotoFile: Option<string>
    var coverPhotoFile: Option<string>

    ghost predicate Valid()
      reads this
    {
      pageSize > 0 && Keyed(categories)
    }

    constructor (initial: seq<Category>)
      requires Keyed(initial)
      ensures Valid()
      ensures categories == initial && pageSize == 6 && pageIndex == 0 && globalFilter == ""
      ensures !isDialogOpen && !isEditMode && editingCategory.None?
      ensures categoryName == "" && mainPhoto == "" && coverPhoto == ""
      ensures mainPhotoFile.None? && coverPhotoFile.None?
    {
      categories, pageSize, pageIndex, globalFilter := initial, 6, 0, "";
      isDialogOpen, isEditMode, editingCategory := false, false, None;
      categoryName, mainPhoto, coverPhoto := "", "", "";
      mainPhotoFile, coverPhotoFile := None, None;
    }

    /** `handleFileUpload`: a chosen file sets the main or cover photo; no file changes nothing. */
    method UploadPhoto(file: Option<string>, dataUrl: string, main: bool)
      modifies this`mainPhoto, this`mainPhotoFile, this`coverPhoto, this`coverPhotoFile
      ensures file.None? ==> mainPhoto == old(mainPhoto) && mainPhotoFile == old(mainPhotoFile) &&
                             coverPhoto == old(coverPhoto) && coverPhotoFile == old(coverPhotoFile)
      ensures file.Some? && main ==> mainPhoto == dataUrl && mainPhotoFile == file &&
                                     coverPhoto == old(coverPhoto) && coverPhotoFile == old(coverPhotoFile)
      ensures file.Some? && !main ==> coverPhoto == dataUrl && coverPhotoFile == file &&
                                      mainPhoto == old(mainPhoto) && mainPhotoFile == old(mainPhotoFile)
    {
      if file.Some? {
        if main {
          mainPhoto, mainPhotoFile := dataUrl, file;
        } else {
          coverPhoto, coverPhotoFile := dataUrl, file;
        }
      }
    }

    /** `handleAddCategory`: an empty form in add mode, dialog open. */
    method AddCategory()
      modifies this`isEditMode, this`editingCategory, this`categoryName, this`mainPhoto,
               this`coverPhoto, this`mainPhotoFile, this`coverPhotoFile, this`isDialogOpen
      ensures !isEditMode && editingCategory.None? && isDialogOpen
      ensures categoryName == "" && mainPhoto == "" && coverPhoto == ""
      ensures mainPhotoFile.None? && coverPhotoFile.None?
    {
      isEditMode, editingCategory := false, None;
      categoryName, mainPhoto, coverPhoto := "", "", "";
      mainPhotoFile, coverPhotoFile := None, None;
      isDialogOpen := true;
    }

    /** `handleEditCategory`: the form loaded from `c` in edit mode, dialog open. */
    method EditCategory(c: Category)
      modifies this`isEditMode, this`editingCategory, this`categoryName, this`mainPhoto,
               this`coverPhoto, this`mainPhotoFile, this`coverPhotoFile, this`isDialogOpen
      ensures isEditMode && editingCategory == Some(c) && isDialogOpen
      ensures categoryName == c.categoryName && mainPhoto == c.mainPhoto && coverPhoto == c.coverPhoto
      ensures mainPhotoFile.None? && coverPhotoFile.None?
    {
      isEditMode, editingCategory := true, Some(c);
      categoryName, mainPhoto, coverPhoto := c.categoryName, c.mainPhoto, c.coverPhoto;
      mainPhotoFile, coverPhotoFile := None, None;
      isDialogOpen := true;
    }

    /**
     * `handleSaveCategory`: an incomplete form changes nothing; otherwise
     * the edited entry is updated (edit mode) or a new one appended, and
     * the dialog closes. Serials stay distinct.
     */
    method SaveCategory()
      requires Valid()
      modifies this`categories, this`isDialogOpen
      ensures Valid()
      ensures categoryName == "" || mainPhoto == "" || coverPhoto == "" ==>
        categories == old(categories) && isDialogOpen == old(isDialogOpen)
      ensures categoryName != "" && mainPhoto != "" && coverPhoto != "" ==>
        && !isDialogOpen
        && categories == (if isEditMode && editingCategory.Some?
                          then EditBySl(old(categories), editingCategory.value.sl, categoryName, mainPhoto, coverPhoto)
                          else Append(old(categories), categoryName, mainPhoto, coverPhoto))
    {
      if categoryName == "" || mainPhoto == "" || coverPhoto == "" {
        return;
      }
      if isEditMode && editingCategory.Some? {
        EditKeyed(categories, editingCategory.value.sl, categoryName, mainPhoto, coverPhoto);
        categories := EditBySl(categories, editingCategory.value.sl, categoryName, mainPhoto, coverPhoto);
      } else {
        AppendKeyed(categories, categoryName, mainPhoto, coverPhoto);
        categories := Append(categories, categoryName, mainPhoto, coverPhoto);
      }
      isDialogOpen := false;
    }
  }
}
