/** The statements `models/flashcardModel.js` sends to PostgreSQL. Each read
    operation builds its query text and its parameter array step by step; the
    functions below say declaratively which statement comes out, and the
    lemmas state what holds of every such statement. Running the statement is
    the store's business and is not modelled. */
module FlashcardModel {
  import opened Outcomes
  import opened JsText
  import opened Sql

  const SelectAll := Lit("SELECT * FROM flashcards")
  const SelectCount := Lit("SELECT COUNT(*) FROM flashcards")
  const WhereKeyword := Lit(" WHERE ")
  const AndKeyword := Lit(" AND ")
  const NewestFirst := Lit(" ORDER BY created_at DESC")
  const RandomOrder := Lit(" ORDER BY RANDOM()")

  /** `(front ILIKE $k OR back ILIKE $k)`: one parameter serves both columns. */
  function SearchCondition(k: nat): seq<Token> {
    [Lit("(front ILIKE "), Placeholder(k), Lit(" OR back ILIKE "), Placeholder(k), Lit(")")]
  }

  /** `category = $k` */
  function CategoryCondition(k: nat): seq<Token> {
    [Lit("category = "), Placeholder(k)]
  }

  /** The `searchTerm = ''` default of the read operations. */
  function SearchTermOrDefault(searchTerm: Option<string>): string {
    if searchTerm.Some? then searchTerm.value else ""
  }

  /** `searchTerm.trim()` is truthy. */
  predicate SearchActive(searchTerm: Option<string>) {
    Trim(SearchTermOrDefault(searchTerm)) != []
  }

  /** The ILIKE pattern bound for a search: the trimmed term between wildcards. */
  function SearchPattern(searchTerm: Option<string>): string {
    "%" + Trim(SearchTermOrDefault(searchTerm)) + "%"
  }

  /** `category && category.toLowerCase() !== 'all'`: present, non-empty, and
      not "all" in any case. An absent category takes the default 'All'. */
  predicate CategoryActive(category: Option<string>) {
    category.Some? && category.value != "" && ToLower(category.value) != "all"
  }

  /** The `conditions` and `params` arrays once the filters are in. */
  datatype Filter = Filter(conditions: seq<seq<Token>>, params: seq<Value>)

  /** The conditions selected by an optional search pattern and an optional
      category value, and the values bound to them, numbered from `$1`: the
      search condition comes first. */
  function FilterFor(pattern: Option<string>, categoryValue: Option<string>): Filter {
    match (pattern, categoryValue)
    case (Some(p), Some(c)) => Filter([SearchCondition(1), CategoryCondition(2)], [Text(p), Text(c)])
    case (Some(p), None) => Filter([SearchCondition(1)], [Text(p)])
    case (None, Some(c)) => Filter([CategoryCondition(1)], [Text(c)])
    case (None, None) => Filter([], [])
  }

  /** The filter of a search term and a category. */
  function FilterOf(searchTerm: Option<string>, category: Option<string>): Filter {
    FilterFor(
      if SearchActive(searchTerm) then Some(SearchPattern(searchTerm)) else None,
      if CategoryActive(category) then Some(category.value) else None)
  }

  /** ` WHERE c1 AND c2 ...`, or nothing when there is no condition. */
  function WhereClause(conditions: seq<seq<Token>>): seq<Token> {
    if conditions == [] then [] else [WhereKeyword] + Join(conditions, [AndKeyword])
  }

  /** ` LIMIT $n+1 OFFSET $n+2` after n filter parameters. */
  function LimitOffset(n: nat): seq<Token> {
    [Lit(" LIMIT "), Placeholder(n + 1), Lit(" OFFSET "), Placeholder(n + 2)]
  }

  /** The list statement for a filter: newest first, one page. */
  function ListOf(f: Filter, page: int, pageSize: int): Statement {
    Statement(
      [SelectAll] + WhereClause(f.conditions) + [NewestFirst] + LimitOffset(|f.params|),
      f.params + [Number(pageSize), Number((page - 1) * pageSize)])
  }

  /** The count statement for a filter. */
  function CountOf(f: Filter): Statement {
    Statement([SelectCount] + WhereClause(f.conditions), f.params)
  }

  /** The paginated list statement of `fetchAllFlashcards`. */
  function ListStatement(searchTerm: Option<string>, category: Option<string>, page: int, pageSize: int): Statement {
    ListOf(FilterOf(searchTerm, category), page, pageSize)
  }

  /** The count statement of `getTotalFlashcardsCount`. */
  function CountStatement(searchTerm: Option<string>, category: Option<string>): Statement {
    CountOf(FilterOf(searchTerm, category))
  }

  /** The statement of `getFlashcardsForStudy`. */
  function StudyStatement(category: Option<string>): Statement {
    if CategoryActive(category) then
      Statement([SelectAll, Lit(" WHERE category = "), Placeholder(1), RandomOrder], [Text(category.value)])
    else
      Statement([SelectAll, RandomOrder], [])
  }

  /** `fetchAllFlashcards(searchTerm, category, page, pageSize)`: the statement
      is built by appending to `query`, `conditions` and `params`, each `$k`
      numbered from the current length of `params`. */
  method FetchAllFlashcards(searchTerm: Option<string>, category: Option<string>, page: int, pageSize: int)
    returns (s: Statement)
    ensures s == ListStatement(searchTerm, category, page, pageSize)
    ensures WellNumbered(s)
  {
    var term := SearchTermOrDefault(searchTerm);
    var query: seq<Token> := [SelectAll];
    var params: seq<Value> := [];
    var conditions: seq<seq<Token>> := [];
    if Trim(term) != [] {
      conditions := conditions + [SearchCondition(|params| + 1)];
      params := params + [Text("%" + Trim(term) + "%")];
    }
    if category.Some? && category.value != "" && ToLower(category.value) != "all" {
      conditions := conditions + [CategoryCondition(|params| + 1)];
      params := params + [Text(category.value)];
    }
    ghost var f := Filter(conditions, params);
    assert f == FilterOf(searchTerm, category);
    if |conditions| > 0 {
      query := query + [WhereKeyword] + Join(conditions, [AndKeyword]);
    }
    assert query == [SelectAll] + WhereClause(f.conditions);
    query := query + [NewestFirst];
    query := query + LimitOffset(|params|);
    params := params + [Number(pageSize), Number((page - 1) * pageSize)];
    s := Statement(query, params);
    assert s == ListOf(f, page, pageSize);
    ListWellNumbered(searchTerm, category, page, pageSize);
  }

  /** `getTotalFlashcardsCount(searchTerm, category)`, built like the list query
      but without ordering and pagination. */
  method GetTotalFlashcardsCount(searchTerm: Option<string>, category: Option<string>)
    returns (s: Statement)
    ensures s == CountStatement(searchTerm, category)
    ensures WellNumbered(s)
  {
    var term := SearchTermOrDefault(searchTerm);
    var query: seq<Token> := [SelectCount];
    var params: seq<Value> := [];
    var conditions: seq<seq<Token>> := [];
    if Trim(term) != [] {
      conditions := conditions + [SearchCondition(|params| + 1)];
      params := params + [Text("%" + Trim(term) + "%")];
    }
    if category.Some? && category.value != "" && ToLower(category.value) != "all" {
      conditions := conditions + [CategoryCondition(|params| + 1)];
      params := params + [Text(category.value)];
    }
    ghost var f := Filter(conditions, params);
    assert f == FilterOf(searchTerm, category);
    if |conditions| > 0 {
      query := query + [WhereKeyword] + Join(conditions, [AndKeyword]);
    }
    assert query == [SelectCount] + WhereClause(f.conditions);
    s := Statement(query, params);
    assert s == CountOf(f);
    CountWellNumbered(searchTerm, category);
  }

  /** `getFlashcardsForStudy(category)`: all matching cards in random order. */
  method GetFlashcardsForStudy(category: Option<string>) returns (s: Statement)
    ensures s == StudyStatement(category)
    ensures WellNumbered(s)
    ensures |s.params| <= 1
  {
    var query: seq<Token> := [SelectAll];
    var params: seq<Value> := [];
    if category.Some? && category.value != "" && ToLower(category.value) != "all" {
      query := query + [Lit(" WHERE category = "), Placeholder(1)];
      params := params + [Text(category.value)];
    }
    query := query + [RandomOrder];
    s := Statement(query, params);
    StudyWellNumbered(category);
  }

  /** `category?.trim() || null`: the trimmed category, or NULL when it is
      absent or blank. */
  function CategoryValue(category: Option<string>): (v: Value)
    ensures v == Null <==> category.None? || AllWhitespace(category.value)
    ensures v != Null ==> v == Text(Trim(category.value)) && Trim(v.s) == v.s
  {
    if category.Some? && Trim(category.value) != [] then
      TrimIdempotent(category.value);
      Text(Trim(category.value))
    else Null
  }

  /** `INSERT INTO flashcards (front, back, category, difficulty) VALUES ($1, $2, $3, $4)`,
      with the line breaks and indentation of the source's template literal. */
  const InsertQuery: seq<Token> :=
    [Lit("INSERT INTO flashcards \n       (front, back, category, difficulty) \n       VALUES ("),
     Placeholder(1), Lit(", "), Placeholder(2), Lit(", "), Placeholder(3), Lit(", "), Placeholder(4), Lit(")")]

  /** `UPDATE flashcards SET front = $1, back = $2, category = $3, difficulty = $4,
      updated_at = NOW() WHERE id = $5`, laid out as in the source. */
  const UpdateQuery: seq<Token> :=
    [Lit("UPDATE flashcards \n       SET front = "), Placeholder(1), Lit(", back = "), Placeholder(2),
     Lit(", category = "), Placeholder(3), Lit(", \n           difficulty = "), Placeholder(4),
     Lit(", updated_at = NOW() \n       WHERE id = "), Placeholder(5)]

  /** A bound value as the write statements leave it: NULL, or text that is
      its own trim. */
  predicate Normalised(v: Value) {
    v.Null? || (v.Text? && Trim(v.s) == v.s)
  }

  /** The values create and update bind first: the trimmed front and back,
      the category value and the difficulty. Every text is its own trim. */
  function CardValues(front: string, back: string, category: Option<string>, difficulty: int): (vs: seq<Value>)
    ensures |vs| == 4
    ensures vs[0].Text? && vs[1].Text?
    ensures Normalised(vs[0]) && Normalised(vs[1]) && Normalised(vs[2])
    ensures vs[3] == Number(difficulty)
  {
    TrimmedIsNormalised(front);
    TrimmedIsNormalised(back);
    [Text(Trim(front)), Text(Trim(back)), CategoryValue(category), Number(difficulty)]
  }

  /** Trimmed text is normalised. */
  lemma TrimmedIsNormalised(s: string)
    ensures Normalised(Text(Trim(s)))
  {
    TrimIdempotent(s);
  }

  /** `createFlashcard(front, back, category, difficulty)`. Calling `trim` on
      an absent front or back throws, which the operation reports as
      "Failed to create flashcard". Otherwise the statement is well numbered
      and binds normalised front, back and category text, then the
      difficulty. */
  function InsertStatement(front: Option<string>, back: Option<string>, category: Option<string>, difficulty: int)
    : (r: Result<Statement, string>)
    ensures r.Success? <==> front.Some? && back.Some?
    ensures r.Failure? ==> r.error == "Failed to create flashcard"
    ensures r.Success? ==> r.value.query == InsertQuery
    ensures r.Success? ==>
      && WellNumbered(r.value) && |r.value.params| == 4
      && r.value.params[0].Text? && r.value.params[1].Text?
      && Normalised(r.value.params[0]) && Normalised(r.value.params[1]) && Normalised(r.value.params[2])
      && r.value.params[3] == Number(difficulty)
  {
    if front.None? || back.None? then Failure("Failed to create flashcard")
    else
      InsertQueryNumbered();
      Success(Statement(InsertQuery, CardValues(front.value, back.value, category, difficulty)))
  }

  /** `modifyFlashcard(id, front, back, category, difficulty)`; `updated_at` is
      set by the store. */
  function UpdateStatement(id: int, front: Option<string>, back: Option<string>, category: Option<string>, difficulty: int)
    : (r: Result<Statement, string>)
    ensures r.Success? <==> front.Some? && back.Some?
    ensures r.Failure? ==> r.error == "Failed to update flashcard"
    ensures r.Success? ==> r.value.query == UpdateQuery
    ensures r.Success? ==>
      && WellNumbered(r.value) && |r.value.params| == 5
      && r.value.params[0].Text? && r.value.params[1].Text?
      && Normalised(r.value.params[0]) && Normalised(r.value.params[1]) && Normalised(r.value.params[2])
      && r.value.params[3] == Number(difficulty) && r.value.params[4] == Number(id)
  {
    if front.None? || back.None? then Failure("Failed to update flashcard")
    else
      UpdateQueryNumbered();
      Success(Statement(UpdateQuery, CardValues(front.value, back.value, category, difficulty) + [Number(id)]))
  }

  /** `DELETE FROM flashcards WHERE id = $1`. */
  const DeleteQuery: seq<Token> := [Lit("DELETE FROM flashcards WHERE id = "), Placeholder(1)]

  /** `removeFlashcard(id)`: the delete text, binding the id alone to `$1`,
      well numbered. */
  function DeleteStatement(id: int): (s: Statement)
    ensures s.query == DeleteQuery
    ensures WellNumbered(s)
    ensures s.params == [Number(id)]
  {
    assert Placeholders(DeleteQuery) == [1] == [1] + [];
    ContinuesCons(1, [], 0, 1);
    Statement(DeleteQuery, [Number(id)])
  }

  // ---------------------------------------------------------------------------
  // Numbering of placeholders

  lemma SearchConditionPlaceholders(k: nat)
    ensures Placeholders(SearchCondition(k)) == [k, k]
  {
    var t0, t1, t2, t3, t4 := Lit("(front ILIKE "), Placeholder(k), Lit(" OR back ILIKE "), Placeholder(k), Lit(")");
    PlaceholdersCons(t4, []);
    PlaceholdersCons(t3, [t4]);
    PlaceholdersCons(t2, [t3, t4]);
    PlaceholdersCons(t1, [t2, t3, t4]);
    PlaceholdersCons(t0, [t1, t2, t3, t4]);
    assert SearchCondition(k) == [t0] + [t1, t2, t3, t4];
  }

  lemma CategoryConditionPlaceholders(k: nat)
    ensures Placeholders(CategoryCondition(k)) == [k]
  {
    PlaceholdersCons(Placeholder(k), []);
    PlaceholdersCons(Lit("category = "), [Placeholder(k)]);
    assert CategoryCondition(k) == [Lit("category = ")] + [Placeholder(k)];
  }

  /** A single condition after ` WHERE ` keeps its placeholders. */
  lemma WhereOnePlaceholders(c: seq<Token>)
    ensures Placeholders(WhereClause([c])) == Placeholders(c)
  {
    LiteralsOnly([WhereKeyword]);
    PlaceholdersAppend([WhereKeyword], c);
  }

  /** Search and category conditions together use `$1`, `$1`, `$2`. */
  lemma WhereBothPlaceholders()
    ensures Placeholders(WhereClause([SearchCondition(1), CategoryCondition(2)])) == [1, 1, 2]
  {
    var s1, c2 := SearchCondition(1), CategoryCondition(2);
    assert WhereClause([s1, c2]) == [WhereKeyword] + (s1 + [AndKeyword] + c2);
    LiteralFirst(WhereKeyword, s1 + [AndKeyword] + c2);
    LiteralLast(s1, AndKeyword);
    SearchConditionPlaceholders(1);
    CategoryConditionPlaceholders(2);
    PlaceholdersAppend(s1 + [AndKeyword], c2);
  }

  /** The WHERE clause of a filter uses `$1` .. `$n` for its n parameters. */
  lemma FilterNumbered(pattern: Option<string>, categoryValue: Option<string>)
    ensures var f := FilterFor(pattern, categoryValue);
      |f.conditions| == |f.params| <= 2 && Continues(Placeholders(WhereClause(f.conditions)), 0, |f.params|)
  {
    if pattern.Some? && categoryValue.Some? {
      WhereBothPlaceholders();
      ContinuesCons(2, [], 1, 2);
      ContinuesCons(1, [2], 1, 2);
      ContinuesCons(1, [1, 2], 0, 2);
    } else if pattern.Some? {
      WhereOnePlaceholders(SearchCondition(1));
      SearchConditionPlaceholders(1);
      ContinuesCons(1, [], 1, 1);
      ContinuesCons(1, [1], 0, 1);
    } else if categoryValue.Some? {
      WhereOnePlaceholders(CategoryCondition(1));
      CategoryConditionPlaceholders(1);
      ContinuesCons(1, [], 0, 1);
    }
  }

  /** The two pagination placeholders. */
  lemma LimitOffsetPlaceholders(n: nat)
    ensures Placeholders(LimitOffset(n)) == [n + 1, n + 2]
  {
    var t0, t1, t2, t3 := Lit(" LIMIT "), Placeholder(n + 1), Lit(" OFFSET "), Placeholder(n + 2);
    PlaceholdersCons(t3, []);
    PlaceholdersCons(t2, [t3]);
    PlaceholdersCons(t1, [t2, t3]);
    PlaceholdersCons(t0, [t1, t2, t3]);
    assert LimitOffset(n) == [t0] + [t1, t2, t3];
  }

  /** The placeholders of a list statement: those of its WHERE clause, then
      LIMIT's and OFFSET's. */
  lemma ListOfPlaceholders(f: Filter, page: int, pageSize: int)
    ensures Placeholders(ListOf(f, page, pageSize).query) ==
      Placeholders(WhereClause(f.conditions)) + [|f.params| + 1, |f.params| + 2]
  {
    var w := WhereClause(f.conditions);
    LiteralFirst(SelectAll, w);
    LiteralLast([SelectAll] + w, NewestFirst);
    PlaceholdersAppend([SelectAll] + w + [NewestFirst], LimitOffset(|f.params|));
    LimitOffsetPlaceholders(|f.params|);
  }

  /** A list statement over a filter whose WHERE clause uses `$1` .. `$n` is
      well numbered: LIMIT and OFFSET take `$n+1` and `$n+2`. */
  lemma ListOfWellNumbered(f: Filter, page: int, pageSize: int)
    requires Continues(Placeholders(WhereClause(f.conditions)), 0, |f.params|)
    ensures WellNumbered(ListOf(f, page, pageSize))
  {
    var n := |f.params|;
    ListOfPlaceholders(f, page, pageSize);
    ContinuesCons(n + 2, [], n + 1, n + 2);
    ContinuesCons(n + 1, [n + 2], n, n + 2);
    ContinuesConcat(Placeholders(WhereClause(f.conditions)), [n + 1, n + 2], 0, n, n + 2);
  }

  /** Every list statement is well numbered. */
  lemma ListWellNumbered(searchTerm: Option<string>, category: Option<string>, page: int, pageSize: int)
    ensures WellNumbered(ListStatement(searchTerm, category, page, pageSize))
  {
    FilterNumbered(
      if SearchActive(searchTerm) then Some(SearchPattern(searchTerm)) else None,
      if CategoryActive(category) then Some(category.value) else None);
    ListOfWellNumbered(FilterOf(searchTerm, category), page, pageSize);
  }

  /** Every count statement is well numbered. */
  lemma CountWellNumbered(searchTerm: Option<string>, category: Option<string>)
    ensures WellNumbered(CountStatement(searchTerm, category))
  {
    FilterNumbered(
      if SearchActive(searchTerm) then Some(SearchPattern(searchTerm)) else None,
      if CategoryActive(category) then Some(category.value) else None);
    var f := FilterOf(searchTerm, category);
    var pw := Placeholders(WhereClause(f.conditions));
    LiteralsOnly([SelectCount]);
    PlaceholdersAppend([SelectCount], WhereClause(f.conditions));
    assert Placeholders(CountStatement(searchTerm, category).query) == pw by { assert [] + pw == pw; }
  }

  lemma StudyWellNumbered(category: Option<string>)
    ensures WellNumbered(StudyStatement(category))
  {
    var q := StudyStatement(category).query;
    if CategoryActive(category) {
      var t1 := Lit(" WHERE category = ");
      PlaceholdersCons(RandomOrder, []);
      PlaceholdersCons(Placeholder(1), [RandomOrder]);
      PlaceholdersCons(t1, [Placeholder(1), RandomOrder]);
      PlaceholdersCons(SelectAll, [t1, Placeholder(1), RandomOrder]);
      assert q == [SelectAll] + [t1, Placeholder(1), RandomOrder];
    } else {
      LiteralsOnly(q);
    }
  }

  lemma InsertPlaceholders()
    ensures Placeholders(InsertQuery) == [1, 2, 3, 4]
  {
  }

  lemma UpdatePlaceholders()
    ensures Placeholders(UpdateQuery) == [1, 2, 3, 4, 5]
  {
  }

  lemma InsertQueryNumbered()
    ensures Continues(Placeholders(InsertQuery), 0, 4)
  {
    InsertPlaceholders();
    ContinuesCons(4, [], 3, 4);
    ContinuesCons(3, [4], 2, 4);
    ContinuesCons(2, [3, 4], 1, 4);
    ContinuesCons(1, [2, 3, 4], 0, 4);
  }

  lemma UpdateQueryNumbered()
    ensures Continues(Placeholders(UpdateQuery), 0, 5)
  {
    UpdatePlaceholders();
    ContinuesCons(5, [], 4, 5);
    ContinuesCons(4, [5], 3, 5);
    ContinuesCons(3, [4, 5], 2, 5);
    ContinuesCons(2, [3, 4, 5], 1, 5);
    ContinuesCons(1, [2, 3, 4, 5], 0, 5);
  }

  // ---------------------------------------------------------------------------
  // What the read statements filter on

  /** The keyword WHERE occurs in a filter's clause exactly when it has a condition. */
  lemma WhereKeywordIffConditions(pattern: Option<string>, categoryValue: Option<string>)
    ensures var f := FilterFor(pattern, categoryValue);
      WhereKeyword in WhereClause(f.conditions) <==> f.conditions != []
    ensures var f := FilterFor(pattern, categoryValue);
      f.conditions != [] <==> pattern.Some? || categoryValue.Some?
  {
    var f := FilterFor(pattern, categoryValue);
    assert WhereKeyword !in SearchCondition(1) && WhereKeyword !in CategoryCondition(1);
    assert WhereKeyword !in SearchCondition(1) + [AndKeyword] + CategoryCondition(2);
    if f.conditions != [] {
      assert WhereClause(f.conditions)[0] == WhereKeyword;
    }
  }

  /** A list or count statement has a WHERE clause exactly when the search
      term is non-blank or the category filter is on; the remaining text is
      the same for every filter. */
  lemma WhereIffFiltered(searchTerm: Option<string>, category: Option<string>, page: int, pageSize: int)
    ensures var filtered := SearchActive(searchTerm) || CategoryActive(category);
      && (WhereKeyword in ListStatement(searchTerm, category, page, pageSize).query <==> filtered)
      && (WhereKeyword in CountStatement(searchTerm, category).query <==> filtered)
  {
    var f := FilterOf(searchTerm, category);
    WhereKeywordIffConditions(
      if SearchActive(searchTerm) then Some(SearchPattern(searchTerm)) else None,
      if CategoryActive(category) then Some(category.value) else None);
    assert WhereKeyword !in [SelectAll] && WhereKeyword !in [SelectCount] && WhereKeyword !in [NewestFirst];
    assert WhereKeyword !in LimitOffset(|f.params|);
  }

  /** The search condition is added exactly when the trimmed search term is
      non-empty; it comes first, binds `$1` for both columns, and its value is
      the trimmed term between `%` wildcards. */
  lemma SearchFilter(searchTerm: Option<string>, category: Option<string>)
    ensures var f := FilterOf(searchTerm, category);
      SearchActive(searchTerm) <==> f.conditions != [] && f.conditions[0] == SearchCondition(1)
    ensures var f := FilterOf(searchTerm, category);
      SearchActive(searchTerm) ==>
        f.params[0] == Text("%" + Trim(SearchTermOrDefault(searchTerm)) + "%")
        && Placeholders(f.conditions[0]) == [1, 1]
    ensures SearchActive(searchTerm) <==> searchTerm.Some? && !AllWhitespace(searchTerm.value)
  {
    SearchConditionPlaceholders(1);
    assert SearchCondition(1) != CategoryCondition(1);
  }

  /** The category condition is added exactly when the category is present,
      non-empty and not "all" in any case; it comes last and binds the
      category as given, untrimmed. */
  lemma CategoryFilter(searchTerm: Option<string>, category: Option<string>)
    ensures var f := FilterOf(searchTerm, category);
      CategoryActive(category) <==>
        f.conditions != [] && f.conditions[|f.conditions| - 1] == CategoryCondition(|f.params|)
    ensures var f := FilterOf(searchTerm, category);
      CategoryActive(category) ==> f.params[|f.params| - 1] == Text(category.value)
    ensures CategoryActive(category) <==>
      && category.Some? && category.value != []
      && !(|category.value| == 3
           && (category.value[0] == 'a' || category.value[0] == 'A')
           && (category.value[1] == 'l' || category.value[1] == 'L')
           && (category.value[2] == 'l' || category.value[2] == 'L'))
  {
    assert SearchCondition(1) != CategoryCondition(1);
    if category.Some? {
      LowerIsAll(category.value);
    }
  }

  /** The list statement binds the filter's values, then the page size and
      the offset (page - 1) * pageSize; the offset is never negative from
      page 1 on. */
  lemma ListPagination(searchTerm: Option<string>, category: Option<string>, page: int, pageSize: int)
    ensures var s := ListStatement(searchTerm, category, page, pageSize);
      var n := |FilterOf(searchTerm, category).params|;
      && |s.params| == n + 2
      && s.params[..n] == FilterOf(searchTerm, category).params
      && s.params[n] == Number(pageSize)
      && s.params[n + 1] == Number((page - 1) * pageSize)
    ensures var s := ListStatement(searchTerm, category, page, pageSize);
      page >= 1 && pageSize >= 0 ==> s.params[|s.params| - 1].n >= 0
  {
    var f := FilterOf(searchTerm, category);
    var s := ListStatement(searchTerm, category, page, pageSize);
    assert s.params[..|f.params|] == f.params;
  }

  /** The count statement filters exactly like the list statement for the
      same search term and category: same conditions, same values, without
      ordering, LIMIT and OFFSET. */
  lemma CountMirrorsList(searchTerm: Option<string>, category: Option<string>, page: int, pageSize: int)
    ensures var l := ListStatement(searchTerm, category, page, pageSize);
      var c := CountStatement(searchTerm, category);
      && c.params == l.params[..|l.params| - 2]
      && l.query[0] == SelectAll && c.query[0] == SelectCount
      && |c.query| + 5 == |l.query|
      && l.query[1..|c.query|] == c.query[1..]
      && l.query[|c.query|..] == [NewestFirst] + LimitOffset(|c.params|)
  {
    var f := FilterOf(searchTerm, category);
    var l := ListStatement(searchTerm, category, page, pageSize);
    assert l.params[..|l.params| - 2] == f.params;
    var w := WhereClause(f.conditions);
    assert l.query == [SelectAll] + w + ([NewestFirst] + LimitOffset(|f.params|));
  }

  /** The study statement binds at most one value: the category, as given,
      exactly when it is present, non-empty and not "all" in any case. */
  lemma StudyFilter(category: Option<string>)
    ensures var s := StudyStatement(category);
      && |s.params| <= 1
      && (|s.params| == 1 <==> CategoryActive(category))
      && (CategoryActive(category) ==> s.params == [Text(category.value)])
      && s.query[0] == SelectAll && s.query[|s.query| - 1] == RandomOrder
  {
  }

  // ---------------------------------------------------------------------------
  // What the write statements store

  /** The text a write statement stores for the front, back and category. */
  function Stored(v: Value): Option<string> {
    if v.Text? then Some(v.s) else None
  }

  /** Create and update bind the trimmed front and back, the trimmed category
      or NULL, and the difficulty unchanged; update binds the same values and
      then the id. A missing front or back makes both fail. */
  lemma WriteArguments(id: int, front: Option<string>, back: Option<string>, category: Option<string>, difficulty: int)
    ensures InsertStatement(front, back, category, difficulty).Success? <==> front.Some? && back.Some?
    ensures UpdateStatement(id, front, back, category, difficulty).Success? <==> front.Some? && back.Some?
    ensures front.Some? && back.Some? ==>
      var ins := InsertStatement(front, back, category, difficulty).value;
      var upd := UpdateStatement(id, front, back, category, difficulty).value;
      && ins.params == [Text(Trim(front.value)), Text(Trim(back.value)), CategoryValue(category), Number(difficulty)]
      && upd.params == ins.params + [Number(id)]
  {
  }

  /** Normalisation is a fixed point: creating a card from the values a
      create statement stores binds the same values again. */
  lemma InsertIsFixpoint(front: string, back: string, category: Option<string>, difficulty: int)
    ensures var ins := InsertStatement(Some(front), Some(back), category, difficulty).value;
      InsertStatement(Stored(ins.params[0]), Stored(ins.params[1]), Stored(ins.params[2]), difficulty)
        == Success(ins)
  {
    var vs := CardValues(front, back, category, difficulty);
    CardValuesFixpoint(front, back, category, difficulty);
    assert InsertStatement(Some(front), Some(back), category, difficulty).value.params == vs;
  }

  /** The card values of stored card values are those values again. */
  lemma CardValuesFixpoint(front: string, back: string, category: Option<string>, difficulty: int)
    ensures var vs := CardValues(front, back, category, difficulty);
      CardValues(Stored(vs[0]).value, Stored(vs[1]).value, Stored(vs[2]), difficulty) == vs
  {
    var a, b, c := Trim(front), Trim(back), CategoryValue(category);
    TrimIdempotent(front);
    TrimIdempotent(back);
    CategoryValueFixpoint(category);
    assert CardValues(a, b, Stored(c), difficulty) == [Text(Trim(a)), Text(Trim(b)), CategoryValue(Stored(c)), Number(difficulty)];
  }

  /** The category value of a stored category value is that value again. */
  lemma CategoryValueFixpoint(category: Option<string>)
    ensures CategoryValue(Stored(CategoryValue(category))) == CategoryValue(category)
  {
    var cv := CategoryValue(category);
    if cv.Text? {
      assert Trim(cv.s) == cv.s != [];
    }
  }
}
