/**
 * The dictionary editor: the category list, the per-category view of the
 * word list and the form that adds an entry.
 */
module DictionaryPage {
  import opened Vocab

  /** Placeholder for a pinyin-to-characters conversion. */
  function MockConvertToHanzi(pinyin: string): string {
    "汉字" + pinyin
  }

  /** Placeholder for a pinyin-to-meaning conversion. */
  function MockConvertToEnglish(pinyin: string): string {
    "Meaning of " + pinyin
  }

  /** Both placeholders keep the pinyin after a fixed prefix, so it can be read back and distinct inputs stay distinct. */
  lemma MockConversionsKeepPinyin(p: string, q: string)
    ensures MockConvertToHanzi(p)[..2] == "汉字" && MockConvertToHanzi(p)[2..] == p
    ensures MockConvertToEnglish(p)[..11] == "Meaning of " && MockConvertToEnglish(p)[11..] == p
    ensures MockConvertToHanzi(p) == MockConvertToHanzi(q) ==> p == q
    ensures MockConvertToEnglish(p) == MockConvertToEnglish(q) ==> p == q
  {
    assert MockConvertToHanzi(q)[2..] == q;
    assert MockConvertToEnglish(q)[11..] == q;
  }

  /** The entry the form builds from its two inputs: all three text columns carry the typed pinyin. */
  function NewEntry(pinyin: string, category: string): (r: Entry)
    ensures r.Pinyin == pinyin && r.Category == category
    ensures |r.Hanzi| >= 2 && r.Hanzi[2..] == pinyin
    ensures |r.English| >= 11 && r.English[11..] == pinyin
  {
    Entry(MockConvertToHanzi(pinyin), pinyin, MockConvertToEnglish(pinyin), category)
  }

  /** `cats[0]`, where the empty list gives `undefined`, which the page treats like "". */
  function FirstCategory(cats: seq<string>): (c: string)
    ensures cats == [] ==> c == ""
    ensures cats != [] ==> c == cats[0]
  {
    if cats == [] then "" else cats[0]
  }

  /** The dropdown starts at the category of the first row, or at "" when there are no rows. */
  lemma FirstCategoryOfData(data: seq<Entry>)
    ensures data == [] ==> FirstCategory(Dedup(CategoriesOf(data))) == ""
    ensures data != [] ==> FirstCategory(Dedup(CategoriesOf(data))) == data[0].Category
  {
    var cats := CategoriesOf(data);
    var d := Dedup(cats);
    if data != [] {
      assert cats[0] in d;
      var k := FirstIndex(cats, d[0]);
      if d[0] != cats[0] {
        var j :| 0 <= j < |d| && d[j] == cats[0];
        DedupFirstOccurrenceOrder(cats, 0, j);
      }
    }
  }

  /**
   * The add handler's three updates keep the page's bookkeeping: appending
   * the entry to the view only when it is in the selected category keeps the
   * view equal to the filter of the new data, and appending its category only
   * when it is new keeps the category list equal to the distinct categories.
   */
  lemma AppendKeepsBookkeeping(allData: seq<Entry>, categories: seq<string>, selected: string, filtered: seq<Entry>, e: Entry)
    requires categories == Dedup(CategoriesOf(allData))
    requires selected != "" ==> filtered == WithCategory(allData, selected)
    ensures categories + (if e.Category in categories then [] else [e.Category]) == Dedup(CategoriesOf(allData + [e]))
    ensures selected != "" ==>
      filtered + (if e.Category == selected then [e] else []) == WithCategory(allData + [e], selected)
  {
    CategoriesOfAppend(allData, e);
    var cats := CategoriesOf(allData + [e]);
    assert cats[..|cats| - 1] == CategoriesOf(allData) && cats[|cats| - 1] == e.Category;
    WithCategoryAppend(allData, e, selected);
  }

  /** The state of the dictionary page. */
  class Dictionary {
    var allData: seq<Entry>
    var categories: seq<string>
    var selectedCategory: string
    var filteredData: seq<Entry>
    var pinyin: string
    var category: string

    /**
     * The category list is the distinct categories of the data in order of
     * first occurrence, and while a category is selected the table shows
     * exactly its entries.
     */
    ghost predicate Valid()
      reads this
    {
      categories == Dedup(CategoriesOf(allData)) &&
      (selectedCategory != "" ==> filteredData == WithCategory(allData, selectedCategory))
    }

    /** The initial component state. */
    constructor ()
      ensures Valid()
      ensures allData == [] && categories == [] && selectedCategory == "" && filteredData == []
      ensures pinyin == "" && category == ""
    {
      allData, categories, selectedCategory, filteredData := [], [], "", [];
      pinyin, category := "", "";
    }

    /**
     * The rows parsed from the CSV arrive: the data, its categories and the
     * first of them as the selection; then the view effect runs, which leaves
     * the table alone while no category is selected.
     */
    method Load(data: seq<Entry>)
      requires Valid()
      modifies this
      ensures Valid()
      ensures allData == data && categories == Dedup(CategoriesOf(data))
      ensures selectedCategory == FirstCategory(categories)
      ensures selectedCategory == if data == [] then "" else data[0].Category
      ensures filteredData == if selectedCategory != "" then WithCategory(data, selectedCategory) else old(filteredData)
      ensures pinyin == old(pinyin) && category == old(category)
    {
      allData := data;
      var cats := Dedup(CategoriesOf(data));
      categories := cats;
      selectedCategory := FirstCategory(cats);
      FirstCategoryOfData(data);
      RefreshView();
    }

    /** The view effect: while a category is selected, show its entries. */
    method RefreshView()
      modifies this
      ensures filteredData == if selectedCategory != "" then WithCategory(allData, selectedCategory) else old(filteredData)
      ensures allData == old(allData) && categories == old(categories) && selectedCategory == old(selectedCategory)
      ensures pinyin == old(pinyin) && category == old(category)
      ensures old(Valid()) ==> Valid()
      ensures categories == Dedup(CategoriesOf(allData)) ==> Valid()
    {
      if selectedCategory == "" {
        return;
      }
      filteredData := WithCategory(allData, selectedCategory);
    }

    /** The category dropdown changes; the view effect follows. */
    method SelectCategory(c: string)
      requires Valid()
      modifies this
      ensures Valid()
      ensures selectedCategory == c
      ensures filteredData == if c != "" then WithCategory(allData, c) else old(filteredData)
      ensures allData == old(allData) && categories == old(categories)
      ensures pinyin == old(pinyin) && category == old(category)
    {
      selectedCategory := c;
      RefreshView();
    }

    /** Typing in the pinyin input. */
    method EditPinyin(s: string)
      requires Valid()
      modifies this
      ensures Valid()
      ensures pinyin == s && category == old(category)
      ensures allData == old(allData) && categories == old(categories)
      ensures selectedCategory == old(selectedCategory) && filteredData == old(filteredData)
    {
      pinyin := s;
    }

    /** Typing in the category input. */
    method EditCategory(s: string)
      requires Valid()
      modifies this
      ensures Valid()
      ensures category == s && pinyin == old(pinyin)
      ensures allData == old(allData) && categories == old(categories)
      ensures selectedCategory == old(selectedCategory) && filteredData == old(filteredData)
    {
      category := s;
    }

    /**
     * The add-entry form is submitted. Both inputs are `required`, so the
     * browser submits only when neither is empty; `added` says whether it did.
     * The new entry goes to the end of the data, to the end of the table when
     * it is in the selected category, and its category to the end of the
     * category list when it is new there; then both inputs are cleared.
     */
    method Submit() returns (added: bool)
      requires Valid()
      modifies this
      ensures Valid()
      ensures added <==> old(pinyin) != "" && old(category) != ""
      ensures !added ==> unchanged(this)
      ensures added ==>
        var e := NewEntry(old(pinyin), old(category));
        allData == old(allData) + [e] &&
        filteredData == old(filteredData) + (if e.Category == selectedCategory then [e] else []) &&
        categories == old(categories) + (if e.Category in old(categories) then [] else [e.Category]) &&
        selectedCategory == old(selectedCategory) && pinyin == "" && category == ""
      ensures NoDup(categories) && old(categories) <= categories
    {
      if pinyin == "" || category == "" {
        return false;
      }
      var newEntry := NewEntry(pinyin, category);
      AppendKeepsBookkeeping(allData, categories, selectedCategory, filteredData, newEntry);
      var view := filteredData + (if newEntry.Category == selectedCategory then [newEntry] else []);
      var cats := categories + (if newEntry.Category in categories then [] else [newEntry.Category]);
      allData, filteredData, categories := allData + [newEntry], view, cats;
      pinyin := "";
      category := "";
      added := true;
    }
  }
}
