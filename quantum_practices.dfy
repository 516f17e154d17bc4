/**
  The practice library page (`QuantumPracticesPage`): the practice templates
  narrowed by a category and a search term, and the category options offered
  for the filter.
 */
module QuantumPractices {
  import opened Values
  import Text
  import Seqs

  /** The category filter's value that applies no category filtering. */
  const AllCategories := "all"

  /** `categoryFilter === 'all' || p.category === categoryFilter` */
  predicate InCategory(p: Record, category: string) {
    category == AllCategories || Prop(p, "category") == JStr(category)
  }

  /** `p.k && p.k.toLowerCase().includes(term)` for a non-empty string field. */
  predicate FieldContains(p: Record, k: string, term: string) {
    NonEmptyStr(p, k).Some? && Text.Contains(Text.Lower(NonEmptyStr(p, k).value), term)
  }

  /** `p.keywords && p.keywords.some(k => k.toLowerCase().includes(term))` */
  predicate KeywordContains(p: Record, term: string) {
    var keywords := Prop(p, "keywords");
    keywords.JArr?
    && (exists i :: 0 <= i < |keywords.items| && keywords.items[i].JStr?
                    && Text.Contains(Text.Lower(keywords.items[i].s), term))
  }

  /** A practice the search keeps: its title, description or one of its keywords contains the lower-cased term. */
  predicate SearchHit(p: Record, term: string) {
    var t := Text.Lower(term);
    FieldContains(p, "title", t) || FieldContains(p, "description", t) || KeywordContains(p, t)
  }

  /** `filteredPractices`: the category step, then the search step when the term is non-empty. */
  function FilteredPractices(templates: seq<Record>, category: string, term: string): seq<Record> {
    var byCategory := if category != AllCategories then Seqs.Filter(templates, p => InCategory(p, category)) else templates;
    if term != "" then Seqs.Filter(byCategory, p => SearchHit(p, term)) else byCategory
  }

  /** Both steps together select the practices passing both tests. */
  predicate Shown(p: Record, category: string, term: string) {
    InCategory(p, category) && (term == "" || SearchHit(p, term))
  }

  /** The two steps are one filter by `Shown`. */
  lemma FilteredIsOneFilter(templates: seq<Record>, category: string, term: string)
    ensures FilteredPractices(templates, category, term) == Seqs.Filter(templates, p => Shown(p, category, term))
  {
    var shown := p => Shown(p, category, term);
    var inCategory := p => InCategory(p, category);
    var hit := p => SearchHit(p, term);
    if category != AllCategories && term != "" {
      Seqs.FilterTwice(templates, inCategory, hit, shown);
    } else if category != AllCategories {
      Seqs.FilterSame(templates, inCategory, shown);
    } else if term != "" {
      Seqs.FilterSame(templates, hit, shown);
    } else {
      Seqs.FilterAll(templates, shown);
    }
  }

  /**
    The shown practices are templates in their original order, and a template
    is shown exactly when it is in the category (or the filter is 'all') and,
    for a non-empty term, its title, description or a keyword contains the
    lower-cased term. With 'all' and no term every template is shown.
   */
  lemma FilteredPracticesSpec(templates: seq<Record>, category: string, term: string)
    ensures Seqs.IsSubsequence(FilteredPractices(templates, category, term), templates)
    ensures forall i :: 0 <= i < |FilteredPractices(templates, category, term)| ==>
      Shown(FilteredPractices(templates, category, term)[i], category, term)
    ensures forall i :: 0 <= i < |templates| && Shown(templates[i], category, term) ==>
      templates[i] in FilteredPractices(templates, category, term)
    ensures category == AllCategories && term == "" ==> FilteredPractices(templates, category, term) == templates
  {
    FilteredIsOneFilter(templates, category, term);
    Seqs.FilterIsSubsequence(templates, p => Shown(p, category, term));
    Seqs.FilterMembers(templates, p => Shown(p, category, term));
  }

  // ---------------------------------------------------------------- categories

  /** Every category that is set is a string: `c.charAt(0)` is called on each. */
  predicate CategoriesAreStrings(templates: seq<Record>) {
    forall i :: 0 <= i < |templates| ==> Prop(templates[i], "category") == JNull || Prop(templates[i], "category").JStr?
  }

  /** `templates.map(p => p.category).filter(c => c != null)` */
  function CategoryNames(templates: seq<Record>): (names: seq<string>)
    requires CategoriesAreStrings(templates)
    ensures forall c :: c in names <==> exists i :: 0 <= i < |templates| && Prop(templates[i], "category") == JStr(c)
    decreases |templates|
  {
    if templates == [] then []
    else
      var rest := CategoryNames(templates[1..]);
      assert forall i :: 1 <= i < |templates| ==> templates[i] == templates[1..][i - 1];
      assert forall i :: 0 <= i < |templates| - 1 ==> templates[1..][i] == templates[i + 1];
      match Prop(templates[0], "category")
      case JStr(c) => [c] + rest
      case _ => rest
  }

  /** A category option: the value the filter takes and the label shown. */
  datatype CategoryOption = CategoryOption(value: string, caption: string)

  /** `categories`: each distinct category once, labelled with its first character upper-cased. */
  function Categories(templates: seq<Record>): seq<CategoryOption>
    requires CategoriesAreStrings(templates)
  {
    var unique := Seqs.Dedup(CategoryNames(templates));
    seq(|unique|, i requires 0 <= i < |unique| => CategoryOption(unique[i], Text.Capitalize(unique[i])))
  }

  /** The values of the options, in order. */
  function OptionValues(options: seq<CategoryOption>): (values: seq<string>)
    ensures |values| == |options|
    ensures forall i :: 0 <= i < |options| ==> values[i] == options[i].value
  {
    seq(|options|, i requires 0 <= i < |options| => options[i].value)
  }

  /** The option values are the distinct category names. */
  lemma OptionValuesAreUnique(templates: seq<Record>)
    requires CategoriesAreStrings(templates)
    ensures OptionValues(Categories(templates)) == Seqs.Dedup(CategoryNames(templates))
  {
  }

  /** The de-duplicated names are the names. */
  lemma DedupMembers(names: seq<string>, c: string)
    ensures c in Seqs.Dedup(names) <==> c in names
  {
    if c in names {
      var k :| 0 <= k < |names| && names[k] == c;
      assert names[k] in Seqs.Dedup(names);
    }
  }

  /**
    The options name each category some template has exactly once, in
    increasing order of first occurrence among the templates' categories,
    and nothing else; each caption is the value with its first character
    upper-cased.
   */
  lemma CategoriesSpec(templates: seq<Record>)
    requires CategoriesAreStrings(templates)
    ensures var values := OptionValues(Categories(templates));
      (forall c :: c in values <==> exists i :: 0 <= i < |templates| && Prop(templates[i], "category") == JStr(c))
      && Seqs.Distinct(values)
      && Seqs.IsSubsequence(values, CategoryNames(templates))
    ensures var values, names := OptionValues(Categories(templates)), CategoryNames(templates);
      (forall i :: 0 <= i < |values| ==> values[i] in names)
      && forall i, j :: 0 <= i < j < |values| ==> Seqs.FirstIndex(names, values[i]) < Seqs.FirstIndex(names, values[j])
    ensures var options := Categories(templates);
      forall i :: 0 <= i < |options| ==> options[i].caption == Text.Capitalize(options[i].value)
  {
    OptionValuesAreUnique(templates);
    Seqs.DedupFirstOrder(CategoryNames(templates));
    forall c ensures c in Seqs.Dedup(CategoryNames(templates)) <==> c in CategoryNames(templates) {
      DedupMembers(CategoryNames(templates), c);
    }
    Seqs.DedupIsSubsequence(CategoryNames(templates));
  }

  /** Choosing any offered category, with no search term, shows at least one practice: the options never lead to an empty page. */
  lemma OptionShowsSome(templates: seq<Record>, option: CategoryOption)
    requires CategoriesAreStrings(templates)
    requires option in Categories(templates)
    ensures FilteredPractices(templates, option.value, "") != []
  {
    CategoriesSpec(templates);
    var k :| 0 <= k < |Categories(templates)| && Categories(templates)[k] == option;
    assert option.value in OptionValues(Categories(templates));
    var i :| 0 <= i < |templates| && Prop(templates[i], "category") == JStr(option.value);
    FilteredPracticesSpec(templates, option.value, "");
    assert Shown(templates[i], option.value, "");
  }
}
