/** The decisions `controllers/flashcardController.js` takes before and after
    it talks to the model: which messages a submitted card earns, how many
    pages a listing has, which card the study view shows next, the difficulty
    a card gets when none is given, and what a rejected form is redirected
    with. Rendering and redirecting themselves are the web framework's
    business and are not modelled. */
module FlashcardController {
  import opened Outcomes
  import opened JsText
  import opened Sql
  import opened FlashcardModel

  // ---------------------------------------------------------------------------
  // Validation of a submitted card

  /** The messages `validateFlashcardInput` can push. */
  datatype Message =
    | FrontRequired | FrontTooShort | FrontTooLong
    | BackRequired | BackTooLong
    | CategoryRequired | CategoryTooLong

  /** The wording of a message, as shown to the user. */
  function Wording(m: Message): string {
    match m
    case FrontRequired => "Question/Term is required"
    case FrontTooShort => "Question/Term must be at least 3 characters"
    case FrontTooLong => "Question/Term cannot exceed 500 characters"
    case BackRequired => "Answer/Definition is required"
    case BackTooLong => "Answer/Definition cannot exceed 1000 characters"
    case CategoryRequired => "Category is required"
    case CategoryTooLong => "Category cannot exceed 50 characters"
  }

  /** No two messages read the same, so the wording identifies the message. */
  lemma WordingInjective(m: Message, m': Message)
    ensures Wording(m) == Wording(m') <==> m == m'
  {
    if Wording(m) == Wording(m') {
      assert |Wording(m)| == |Wording(m')|;
    }
  }

  /** The wordings of a list of messages. */
  function Wordings(ms: seq<Message>): (ts: seq<string>)
    ensures |ts| == |ms|
    ensures forall i :: 0 <= i < |ms| ==> ts[i] == Wording(ms[i])
  {
    seq(|ms|, i requires 0 <= i < |ms| => Wording(ms[i]))
  }

  /** The texts a rejected form is redirected with identify the messages,
      in order. */
  lemma WordingsInjective(ms: seq<Message>, ms': seq<Message>)
    ensures Wordings(ms) == Wordings(ms') <==> ms == ms'
  {
    if Wordings(ms) == Wordings(ms') {
      forall i | 0 <= i < |ms|
        ensures ms[i] == ms'[i]
      {
        WordingInjective(ms[i], ms'[i]);
      }
    }
  }

  /** The field a message is about: 0 front, 1 back, 2 category. */
  function Field(m: Message): nat {
    if m.FrontRequired? || m.FrontTooShort? || m.FrontTooLong? then 0
    else if m.BackRequired? || m.BackTooLong? then 1
    else 2
  }

  /** `x.trim().length`, and 0 for an absent field (`!x` holds for it, as it
      does for the empty string). */
  function TrimmedLength(x: Option<string>): nat {
    if x.None? then 0 else Utf16Length(Trim(x.value))
  }

  /** The trimmed length is 0 exactly for an absent or blank field, and lies
      between the number of characters `trim` leaves and twice that. */
  lemma TrimmedLengthBounds(x: Option<string>)
    ensures TrimmedLength(x) == 0 <==> x.None? || AllWhitespace(x.value)
    ensures x.Some? ==> |Trim(x.value)| <= TrimmedLength(x) <= 2 * |Trim(x.value)|
  {
  }

  /** The message a front of trimmed length `n` earns, if any. */
  function FrontError(n: nat): Option<Message> {
    if n == 0 then Some(FrontRequired)
    else if n < 3 then Some(FrontTooShort)
    else if n > 500 then Some(FrontTooLong)
    else None
  }

  /** The message a back of trimmed length `n` earns, if any. */
  function BackError(n: nat): Option<Message> {
    if n == 0 then Some(BackRequired)
    else if n > 1000 then Some(BackTooLong)
    else None
  }

  /** The message a category of trimmed length `n` earns, if any. */
  function CategoryError(n: nat): Option<Message> {
    if n == 0 then Some(CategoryRequired)
    else if n > 50 then Some(CategoryTooLong)
    else None
  }

  function Listed(e: Option<Message>): seq<Message> {
    if e.Some? then [e.value] else []
  }

  /** The messages for fields of the given trimmed lengths, front first, then
      back, then category. */
  function ErrorsFor(frontLength: nat, backLength: nat, categoryLength: nat): seq<Message> {
    Listed(FrontError(frontLength)) + Listed(BackError(backLength)) + Listed(CategoryError(categoryLength))
  }

  /** The messages of `validateFlashcardInput`: they depend on the fields'
      trimmed lengths only. */
  function ValidationErrors(front: Option<string>, back: Option<string>, category: Option<string>): seq<Message> {
    ErrorsFor(TrimmedLength(front), TrimmedLength(back), TrimmedLength(category))
  }

  /** The trimmed lengths a card must have to pass validation: 3 to 500 code
      units of front, 1 to 1000 of back, 1 to 50 of category. */
  predicate LengthsAcceptable(frontLength: nat, backLength: nat, categoryLength: nat) {
    && 3 <= frontLength <= 500
    && 1 <= backLength <= 1000
    && 1 <= categoryLength <= 50
  }

  predicate Acceptable(front: Option<string>, back: Option<string>, category: Option<string>) {
    LengthsAcceptable(TrimmedLength(front), TrimmedLength(back), TrimmedLength(category))
  }

  /** `validateFlashcardInput(front, back, category)`: at most one message
      per field, in field order, and none exactly for an acceptable card. */
  method ValidateFlashcardInput(front: Option<string>, back: Option<string>, category: Option<string>)
    returns (errors: seq<Message>)
    ensures errors == ValidationErrors(front, back, category)
    ensures errors == [] <==> Acceptable(front, back, category)
    ensures |errors| <= 3
    ensures forall i, j :: 0 <= i < j < |errors| ==> Field(errors[i]) < Field(errors[j])
  {
    errors := CollectMessages(TrimmedLength(front), TrimmedLength(back), TrimmedLength(category));
  }

  /** The three if/else-if chains of `validateFlashcardInput`, on the fields'
      trimmed lengths: each pushes at most one message onto `errors`. */
  method CollectMessages(frontLength: nat, backLength: nat, categoryLength: nat) returns (errors: seq<Message>)
    ensures errors == ErrorsFor(frontLength, backLength, categoryLength)
    ensures errors == [] <==> LengthsAcceptable(frontLength, backLength, categoryLength)
    ensures |errors| <= 3
    ensures forall i, j :: 0 <= i < j < |errors| ==> Field(errors[i]) < Field(errors[j])
  {
    errors := [];
    if frontLength == 0 {
      errors := errors + [FrontRequired];
    } else if frontLength < 3 {
      errors := errors + [FrontTooShort];
    } else if frontLength > 500 {
      errors := errors + [FrontTooLong];
    }
    assert errors == Listed(FrontError(frontLength));
    if backLength == 0 {
      errors := errors + [BackRequired];
    } else if backLength > 1000 {
      errors := errors + [BackTooLong];
    }
    assert errors == Listed(FrontError(frontLength)) + Listed(BackError(backLength));
    if categoryLength == 0 {
      errors := errors + [CategoryRequired];
    } else if categoryLength > 50 {
      errors := errors + [CategoryTooLong];
    }
    assert errors == ErrorsFor(frontLength, backLength, categoryLength);
    ValidationPasses(frontLength, backLength, categoryLength);
    ValidationOrdered(frontLength, backLength, categoryLength);
  }

  /** No message exactly when every length is acceptable. */
  lemma ValidationPasses(frontLength: nat, backLength: nat, categoryLength: nat)
    ensures ErrorsFor(frontLength, backLength, categoryLength) == [] <==>
      LengthsAcceptable(frontLength, backLength, categoryLength)
  {
    var f, b, c := Listed(FrontError(frontLength)), Listed(BackError(backLength)), Listed(CategoryError(categoryLength));
    assert |f + b + c| == |f| + |b| + |c|;
  }

  /** At most one message per field, in the order front, back, category. */
  lemma ValidationOrdered(frontLength: nat, backLength: nat, categoryLength: nat)
    ensures var errors := ErrorsFor(frontLength, backLength, categoryLength);
      && |errors| <= 3
      && forall i, j :: 0 <= i < j < |errors| ==> Field(errors[i]) < Field(errors[j])
  {
    var f, b, c := Listed(FrontError(frontLength)), Listed(BackError(backLength)), Listed(CategoryError(categoryLength));
    var errors := f + b + c;
    forall k | 0 <= k < |errors|
      ensures Field(errors[k]) == if k < |f| then 0 else if k < |f| + |b| then 1 else 2
    {
      if k < |f| {
        assert errors[k] == f[k];
      } else if k < |f| + |b| {
        assert errors[k] == b[k - |f|];
      } else {
        assert errors[k] == c[k - |f| - |b|];
      }
    }
  }

  /** The messages about field `field`, in order. */
  function MessagesAbout(errors: seq<Message>, field: nat): (ms: seq<Message>)
    ensures forall m :: m in ms ==> m in errors && Field(m) == field
  {
    if errors == [] then []
    else (if Field(errors[0]) == field then [errors[0]] else []) + MessagesAbout(errors[1..], field)
  }

  /** Picking out one field's messages gives that field's own message back. */
  lemma {:induction false} FieldMessages(frontLength: nat, backLength: nat, categoryLength: nat)
    ensures var errors := ErrorsFor(frontLength, backLength, categoryLength);
      && MessagesAbout(errors, 0) == Listed(FrontError(frontLength))
      && MessagesAbout(errors, 1) == Listed(BackError(backLength))
      && MessagesAbout(errors, 2) == Listed(CategoryError(categoryLength))
  {
    var f, b, c := Listed(FrontError(frontLength)), Listed(BackError(backLength)), Listed(CategoryError(categoryLength));
    forall field | 0 <= field <= 2
      ensures MessagesAbout(f + b + c, field) == MessagesAbout(f, field) + MessagesAbout(b, field) + MessagesAbout(c, field)
    {
      MessagesAboutAppend(f, b, field);
      MessagesAboutAppend(f + b, c, field);
    }
    Alone(f, 0);
    Alone(b, 1);
    Alone(c, 2);
  }

  /** At most one message, about field `field`: picked out under that field
      and under no other. */
  lemma Alone(ms: seq<Message>, field: nat)
    requires |ms| <= 1 && forall m :: m in ms ==> Field(m) == field
    ensures forall other :: MessagesAbout(ms, other) == if other == field then ms else []
  {
    if ms != [] {
      assert ms[1..] == [];
    }
  }

  lemma {:induction false} MessagesAboutAppend(a: seq<Message>, b: seq<Message>, field: nat)
    ensures MessagesAbout(a + b, field) == MessagesAbout(a, field) + MessagesAbout(b, field)
  {
    if a == [] {
      assert a + b == b;
    } else {
      var head := if Field(a[0]) == field then [a[0]] else [];
      assert (a + b)[0] == a[0];
      assert (a + b)[1..] == a[1..] + b;
      MessagesAboutAppend(a[1..], b, field);
      calc {
        MessagesAbout(a + b, field);
        head + MessagesAbout(a[1..] + b, field);
        head + (MessagesAbout(a[1..], field) + MessagesAbout(b, field));
        (head + MessagesAbout(a[1..], field)) + MessagesAbout(b, field);
      }
    }
  }

  /** An absent or whitespace-only front earns exactly "Question/Term is
      required", first in the list, and no length message about the front. */
  lemma BlankFront(front: Option<string>, back: Option<string>, category: Option<string>)
    ensures var errors := ValidationErrors(front, back, category);
      (front.None? || AllWhitespace(front.value)) <==> (errors != [] && errors[0] == FrontRequired)
    ensures front.None? || AllWhitespace(front.value) ==>
      MessagesAbout(ValidationErrors(front, back, category), 0) == [FrontRequired]
  {
    TrimmedLengthBounds(front);
    FieldMessages(TrimmedLength(front), TrimmedLength(back), TrimmedLength(category));
  }

  /** A trimmed front of one or two code units is too short; one of more than
      500 is too long; nothing in between earns a front message. */
  lemma FrontLength(frontLength: nat, backLength: nat, categoryLength: nat)
    ensures var errors := ErrorsFor(frontLength, backLength, categoryLength);
      && (1 <= frontLength <= 2 <==> MessagesAbout(errors, 0) == [FrontTooShort])
      && (frontLength > 500 <==> MessagesAbout(errors, 0) == [FrontTooLong])
      && (3 <= frontLength <= 500 <==> MessagesAbout(errors, 0) == [])
  {
    FieldMessages(frontLength, backLength, categoryLength);
  }

  /** The back earns "required" at trimmed length 0, "cannot exceed 1000"
      beyond 1000 code units, and no message otherwise. */
  lemma BackLength(frontLength: nat, backLength: nat, categoryLength: nat)
    ensures var errors := ErrorsFor(frontLength, backLength, categoryLength);
      && (backLength == 0 <==> MessagesAbout(errors, 1) == [BackRequired])
      && (backLength > 1000 <==> MessagesAbout(errors, 1) == [BackTooLong])
      && (1 <= backLength <= 1000 <==> MessagesAbout(errors, 1) == [])
  {
    FieldMessages(frontLength, backLength, categoryLength);
  }

  /** The category earns "required" at trimmed length 0, "cannot exceed 50"
      beyond 50 code units, and no message otherwise. */
  lemma CategoryLength(frontLength: nat, backLength: nat, categoryLength: nat)
    ensures var errors := ErrorsFor(frontLength, backLength, categoryLength);
      && (categoryLength == 0 <==> MessagesAbout(errors, 2) == [CategoryRequired])
      && (categoryLength > 50 <==> MessagesAbout(errors, 2) == [CategoryTooLong])
      && (1 <= categoryLength <= 50 <==> MessagesAbout(errors, 2) == [])
  {
    FieldMessages(frontLength, backLength, categoryLength);
  }

  // ---------------------------------------------------------------------------
  // Pagination

  /** Cards per page in the listing and in the edit view. */
  const PageSize := 12

  /** `Math.ceil(total / pageSize)`: the fewest pages that hold `total` cards. */
  function TotalPages(total: nat, pageSize: nat): (pages: nat)
    requires pageSize > 0
    ensures (pages - 1) * pageSize < total <= pages * pageSize
  {
    (total + pageSize - 1) / pageSize
  }

  /** The paging fields handed to the view. */
  datatype PageInfo = PageInfo(currentPage: int, totalPages: nat, hasPreviousPage: bool, hasNextPage: bool)

  /** `currentPage`, `totalPages`, `hasPreviousPage` and `hasNextPage` for page
      `page` of a listing of `total` cards. A next page is offered exactly
      when cards lie beyond the current page, and a previous page exactly
      when the page is above 1, that is when the page before it starts at a
      non-negative offset. */
  function Paginate(total: nat, page: int): (p: PageInfo)
    ensures p.currentPage == page
    ensures (p.totalPages - 1) * PageSize < total <= p.totalPages * PageSize
    ensures p.hasNextPage <==> page * PageSize < total
    ensures p.hasPreviousPage <==> page > 1
  {
    var pages := TotalPages(total, PageSize);
    assert page < pages ==> page * PageSize <= (pages - 1) * PageSize;
    PageInfo(page, pages, page > 1, page < pages)
  }

  /** Pages 1 .. totalPages each start at a card that exists, and every later
      page starts beyond the last card: the OFFSET of the list statement for
      a page is below the total exactly for those pages. */
  lemma PagesAreNonEmpty(total: nat, page: int)
    requires page >= 1
    ensures (page - 1) * PageSize < total <==> page <= Paginate(total, page).totalPages
  {
    var pages := TotalPages(total, PageSize);
    if page <= pages {
      assert (page - 1) * PageSize <= (pages - 1) * PageSize;
    } else {
      assert (page - 1) * PageSize >= pages * PageSize;
    }
  }

  /** No cards: no pages, and no next page from any page. */
  lemma EmptyListing(page: int)
    requires page >= 1
    ensures Paginate(0, page).totalPages == 0
    ensures !Paginate(0, page).hasNextPage
  {
  }

  // ---------------------------------------------------------------------------
  // The study navigator

  /** The card after index `i` in a list of `n` cards: back to the first
      after the last. The result is a card of the list for every index from
      -1 on. */
  function NextIndex(n: int, i: int): (j: int)
    requires n >= 1
    ensures 0 <= j < n <==> i >= -1
  {
    if i >= n - 1 then 0 else i + 1
  }

  /** The card before index `i` in a list of `n` cards: the last before the
      first. The result is a card of the list for every index up to `n`. */
  function PreviousIndex(n: int, i: int): (j: int)
    requires n >= 1
    ensures 0 <= j < n <==> i <= n
  {
    if i <= 0 then n - 1 else i - 1
  }

  /** On the cards of the list, next and previous are the successor and the
      predecessor modulo `n`. */
  lemma NavigationModulo(n: int, i: int)
    requires n >= 1 && 0 <= i < n
    ensures NextIndex(n, i) == (i + 1) % n
    ensures PreviousIndex(n, i) == (i - 1) % n
  {
    if i + 1 < n {
      ModUnique(i + 1, n, 0, i + 1);
    } else {
      ModUnique(i + 1, n, 1, 0);
    }
    if i >= 1 {
      ModUnique(i - 1, n, 0, i - 1);
    } else {
      ModUnique(i - 1, n, -1, n - 1);
    }
  }

  /** `x mod n` is the one remainder in [0, n) that differs from `x` by a
      multiple of `n`. */
  lemma ModUnique(x: int, n: int, q: int, r: int)
    requires n >= 1 && 0 <= r < n && x == q * n + r
    ensures x % n == r
  {
    var q', r' := x / n, x % n;
    assert x == q' * n + r';
    assert (q - q') * n == r' - r;
    if q' < q {
      MulAtLeast(q - q', n);
    } else if q' > q {
      MulAtLeast(q' - q, n);
    }
  }

  lemma {:induction false} MulAtLeast(a: int, n: int)
    requires a >= 1 && n >= 1
    ensures a * n >= n
  {
    if a > 1 {
      MulAtLeast(a - 1, n);
      assert a * n == (a - 1) * n + n;
    }
  }

  /** Stepping forward and then back, or back and then forward, returns to
      the card one started from; from the last card the next is the first,
      and from the first the previous is the last. */
  lemma NavigationInverse(n: int, i: int)
    requires n >= 1 && 0 <= i < n
    ensures PreviousIndex(n, NextIndex(n, i)) == i
    ensures NextIndex(n, PreviousIndex(n, i)) == i
    ensures NextIndex(n, n - 1) == 0 && PreviousIndex(n, 0) == n - 1
  {
  }

  /** `k` steps forward from card `i`. */
  function Forward(n: int, i: int, k: nat): int
    requires n >= 1
  {
    if k == 0 then i else NextIndex(n, Forward(n, i, k - 1))
  }

  /** Before the end of the list, `k` steps forward add `k`. */
  lemma {:induction false} ForwardWithin(n: int, i: int, k: nat)
    requires n >= 1 && 0 <= i && i + k < n
    ensures Forward(n, i, k) == i + k
  {
    if k > 0 {
      ForwardWithin(n, i, k - 1);
    }
  }

  /** `a + b` steps are `a` steps and then `b` more. */
  lemma {:induction false} ForwardSplit(n: int, i: int, a: nat, b: nat)
    requires n >= 1
    ensures Forward(n, i, a + b) == Forward(n, Forward(n, i, a), b)
  {
    if b > 0 {
      ForwardSplit(n, i, a, b - 1);
    }
  }

  /** Stepping forward from any card reaches every card within `n - 1`
      steps, and `n` steps come back to the start. */
  lemma ForwardCycle(n: int, i: int, c: int)
    requires n >= 1 && 0 <= i < n && 0 <= c < n
    ensures Forward(n, i, n) == i
    ensures exists k: nat :: k < n && Forward(n, i, k) == c
  {
    ForwardWithin(n, i, n - 1 - i);
    assert Forward(n, i, n - i) == 0;
    ForwardWithin(n, 0, i);
    ForwardSplit(n, i, n - i, i);
    if c >= i {
      ForwardWithin(n, i, c - i);
    } else {
      ForwardWithin(n, 0, c);
      ForwardSplit(n, i, n - i, c);
      assert Forward(n, i, n - i + c) == c;
    }
  }

  /** The category `getFlashcardsForStudy` is called with: `'all'` for an
      absent or empty category and for `'All'`, otherwise the category as given. */
  function StudyCategory(category: Option<string>): (c: string)
    ensures c == "all" <==> category.None? || category.value in {"", "All", "all"}
    ensures c != "all" ==> c == category.value
  {
    if category.None? || category.value == "" || category.value == "All" then "all" else category.value
  }

  /** The study statement filters by category exactly when the requested
      category is present, non-empty and not "all" in any case; it then binds
      the category unchanged. */
  lemma StudyQueryFilter(category: Option<string>)
    ensures var s := StudyStatement(Some(StudyCategory(category)));
      && |s.params| <= 1
      && (s.params != [] <==> category.Some? && category.value != "" && ToLower(category.value) != "all")
      && (s.params != [] ==> s.params == [Text(category.value)])
  {
    if category.Some? && category.value == "All" {
      LowerIsAll(category.value);
    }
    LowerIsAll("all");
  }

  const NoCardsLocation := "/?errors=No flashcards found to study"

  /** What the study handler does: redirect home, or show one card. */
  datatype StudyOutcome =
    | NoCardsRedirect(location: string)
    | ShowCard(categoryFilter: string, currentCardIndex: int)

  /** `startStudySession` once the study list has come back with `cardCount`
      cards. `currentIndex` is the parsed index from the query, absent when
      the query has none; `isPrevious` says whether the path contains
      `/previous`. */
  function StudySession(category: Option<string>, currentIndex: Option<int>, isPrevious: bool, cardCount: nat)
    : (o: StudyOutcome)
    ensures o.NoCardsRedirect? <==> cardCount == 0
    ensures o.NoCardsRedirect? ==> o.location == NoCardsLocation
  {
    var index := if currentIndex.Some? then currentIndex.value else 0;
    var filter := StudyCategory(category);
    if cardCount == 0 then NoCardsRedirect(NoCardsLocation)
    else
      var newIndex := if isPrevious then PreviousIndex(cardCount, index) else NextIndex(cardCount, index);
      ShowCard(if filter == "all" then "All" else filter, newIndex)
  }

  /** With cards to show, the shown index is a card of the list whenever the
      incoming index is one (or absent), and it is the neighbour of the
      incoming card in the requested direction. A session opened without an
      index steps forward from card 0. */
  lemma StudySessionShowsACard(category: Option<string>, currentIndex: Option<int>, isPrevious: bool, cardCount: nat)
    requires cardCount >= 1
    requires currentIndex.Some? ==> 0 <= currentIndex.value < cardCount
    ensures var o := StudySession(category, currentIndex, isPrevious, cardCount);
      var i := if currentIndex.Some? then currentIndex.value else 0;
      && o.ShowCard?
      && 0 <= o.currentCardIndex < cardCount
      && o.currentCardIndex == (if isPrevious then (i - 1) % cardCount else (i + 1) % cardCount)
  {
    NavigationModulo(cardCount, if currentIndex.Some? then currentIndex.value else 0);
  }

  /** The view shows 'All' for every request that studies all cards, and the
      requested category otherwise. */
  lemma StudyFilterShown(category: Option<string>, currentIndex: Option<int>, isPrevious: bool, cardCount: nat)
    requires cardCount >= 1
    ensures var o := StudySession(category, currentIndex, isPrevious, cardCount);
      && (o.categoryFilter == "All" <==> category.None? || category.value in {"", "All", "all"})
      && (o.categoryFilter != "All" ==> o.categoryFilter == category.value)
  {
  }

  // ---------------------------------------------------------------------------
  // Difficulty

  /** `parseInt(difficulty) || 1`, with `None` standing for NaN: NaN and 0
      become 1, every other number is kept. */
  function DefaultDifficulty(parsed: Option<int>): (d: int)
    ensures d != 0
    ensures parsed.Some? && parsed.value != 0 ==> d == parsed.value
  {
    if parsed.None? || parsed.value == 0 then 1 else parsed.value
  }

  /** Defaulting a difficulty that was already defaulted changes nothing. */
  lemma DefaultDifficultyIdempotent(parsed: Option<int>)
    ensures DefaultDifficulty(Some(DefaultDifficulty(parsed))) == DefaultDifficulty(parsed)
    ensures DefaultDifficulty(parsed) == 1 <==> parsed.None? || parsed.value in {0, 1}
  {
  }

  // ---------------------------------------------------------------------------
  // The redirect of a rejected form

  /** A key/value pair of a query string, in the order appended. */
  datatype Pair = Pair(key: string, value: string)

  /** The pairs `URLSearchParams` holds when a form is rejected: one `errors`
      pair per message, then the submitted front (`String(undefined)` when it
      is absent), back and category (empty when absent), and the difficulty. */
  function RedirectPairs(errors: seq<string>, front: Option<string>, back: Option<string>,
                         category: Option<string>, difficulty: int): (ps: seq<Pair>)
    ensures |ps| == |errors| + 4
    ensures forall i :: 0 <= i < |errors| ==> ps[i] == Pair("errors", errors[i])
    ensures forall i :: |errors| <= i < |ps| ==> ps[i].key != "errors"
  {
    ErrorPairs(errors) + FieldPairs(front, back, category, difficulty)
  }

  /** The form fields set after the messages. */
  function FieldPairs(front: Option<string>, back: Option<string>, category: Option<string>, difficulty: int)
    : (fs: seq<Pair>)
    ensures |fs| == 4
    ensures fs[0].key == "front" && fs[1].key == "back" && fs[2].key == "category" && fs[3].key == "difficulty"
    ensures front.Some? ==> fs[0].value == front.value
    ensures back.Some? ==> fs[1].value == back.value
    ensures category.Some? ==> fs[2].value == category.value
    ensures Spells(fs[3].value, difficulty)
  {
    [Pair("front", if front.Some? then front.value else "undefined"),
     Pair("back", if back.Some? then back.value else ""),
     Pair("category", if category.Some? then category.value else ""),
     Pair("difficulty", IntToDecimal(difficulty))]
  }

  function ErrorPairs(errors: seq<string>): (ps: seq<Pair>)
    ensures |ps| == |errors|
    ensures forall i :: 0 <= i < |ps| ==> ps[i] == Pair("errors", errors[i])
  {
    if errors == [] then [] else [Pair("errors", errors[0])] + ErrorPairs(errors[1..])
  }

  /** The values of every pair with key `key`, in order: what the listing
      handler reads as `req.query.errors`. */
  function ValuesOf(pairs: seq<Pair>, key: string): seq<string>
  {
    if pairs == [] then []
    else (if pairs[0].key == key then [pairs[0].value] else []) + ValuesOf(pairs[1..], key)
  }

  /** A text is read back under a key exactly when some pair carries it
      under that key. */
  lemma {:induction false} ValuesOfMembers(pairs: seq<Pair>, key: string, v: string)
    ensures v in ValuesOf(pairs, key) <==> Pair(key, v) in pairs
  {
    if pairs != [] {
      ValuesOfMembers(pairs[1..], key, v);
      assert pairs == [pairs[0]] + pairs[1..];
    }
  }

  lemma ValuesOfCons(p: Pair, ps: seq<Pair>, key: string)
    ensures ValuesOf([p] + ps, key) == (if p.key == key then [p.value] else []) + ValuesOf(ps, key)
  {
    assert ([p] + ps)[1..] == ps;
  }

  lemma {:induction false} ValuesOfAppend(a: seq<Pair>, b: seq<Pair>, key: string)
    ensures ValuesOf(a + b, key) == ValuesOf(a, key) + ValuesOf(b, key)
  {
    if a == [] {
      assert a + b == b;
    } else {
      var head := if a[0].key == key then [a[0].value] else [];
      assert (a + b)[0] == a[0];
      assert (a + b)[1..] == a[1..] + b;
      ValuesOfAppend(a[1..], b, key);
      calc {
        ValuesOf(a + b, key);
        head + ValuesOf(a[1..] + b, key);
        head + (ValuesOf(a[1..], key) + ValuesOf(b, key));
        (head + ValuesOf(a[1..], key)) + ValuesOf(b, key);
      }
    }
  }

  /** The `errors` pairs give back the messages, in order, and nothing else. */
  lemma {:induction false} ErrorValues(errors: seq<string>, key: string)
    ensures ValuesOf(ErrorPairs(errors), key) == if key == "errors" then errors else []
  {
    if errors != [] {
      ErrorValues(errors[1..], key);
    }
  }

  /** The form-field pairs give back one value under each field's key. */
  lemma FieldValues(front: Option<string>, back: Option<string>, category: Option<string>, difficulty: int,
                    key: string)
    ensures ValuesOf(FieldPairs(front, back, category, difficulty), key) ==
      (if key == "front" then [if front.Some? then front.value else "undefined"] else [])
      + (if key == "back" then [if back.Some? then back.value else ""] else [])
      + (if key == "category" then [if category.Some? then category.value else ""] else [])
      + (if key == "difficulty" then [IntToDecimal(difficulty)] else [])
  {
    var fields := FieldPairs(front, back, category, difficulty);
    var p0, p1, p2, p3 := fields[0], fields[1], fields[2], fields[3];
    ValuesOfCons(p3, [], key);
    ValuesOfCons(p2, [p3], key);
    ValuesOfCons(p1, [p2, p3], key);
    ValuesOfCons(p0, [p1, p2, p3], key);
    assert fields == [p0] + [p1, p2, p3];
  }

  /** Read back under any key, the redirect gives the messages under
      `errors` and the one submitted value under each form field. */
  lemma RedirectValues(errors: seq<string>, front: Option<string>, back: Option<string>,
                       category: Option<string>, difficulty: int, key: string)
    ensures ValuesOf(RedirectPairs(errors, front, back, category, difficulty), key) ==
      (if key == "errors" then errors else []) + ValuesOf(FieldPairs(front, back, category, difficulty), key)
  {
    ErrorValues(errors, key);
    ValuesOfAppend(ErrorPairs(errors), FieldPairs(front, back, category, difficulty), key);
  }

  /** The listing that the redirect leads to reads back exactly the messages,
      in order, and one value each for front, back, category and difficulty. */
  lemma RedirectRoundTrip(errors: seq<string>, front: Option<string>, back: Option<string>,
                          category: Option<string>, difficulty: int)
    ensures var pairs := RedirectPairs(errors, front, back, category, difficulty);
      && ValuesOf(pairs, "errors") == errors
      && ValuesOf(pairs, "front") == [if front.Some? then front.value else "undefined"]
      && ValuesOf(pairs, "back") == [if back.Some? then back.value else ""]
      && ValuesOf(pairs, "category") == [if category.Some? then category.value else ""]
      && ValuesOf(pairs, "difficulty") == [IntToDecimal(difficulty)]
  {
    RedirectValues(errors, front, back, category, difficulty, "errors");
    FieldValues(front, back, category, difficulty, "errors");
    RedirectValues(errors, front, back, category, difficulty, "front");
    FieldValues(front, back, category, difficulty, "front");
    RedirectValues(errors, front, back, category, difficulty, "back");
    FieldValues(front, back, category, difficulty, "back");
    RedirectValues(errors, front, back, category, difficulty, "category");
    FieldValues(front, back, category, difficulty, "category");
    RedirectValues(errors, front, back, category, difficulty, "difficulty");
    FieldValues(front, back, category, difficulty, "difficulty");
  }

  // ---------------------------------------------------------------------------
  // Submitting a card

  /** What a create or update submission leads to. */
  datatype SubmitOutcome =
    | RedirectWithErrors(pairs: seq<Pair>)
    | Write(statement: Statement)

  /** A stored text: its own trim, with a length in [lo, hi]. */
  predicate StoredText(v: Value, lo: nat, hi: nat) {
    v.Text? && Trim(v.s) == v.s && lo <= Utf16Length(v.s) <= hi
  }

  /** What every written card satisfies: a trimmed front of 3 to 500 code
      units, a trimmed back of 1 to 1000, a trimmed category of 1 to 50, and
      a non-zero difficulty. */
  predicate StoredCard(params: seq<Value>) {
    && |params| >= 4
    && StoredText(params[0], 3, 500)
    && StoredText(params[1], 1, 1000)
    && StoredText(params[2], 1, 50)
    && params[3].Number? && params[3].n != 0
  }

  /** A field whose trimmed length lies in [lo, hi], with lo at least 1, is
      present, and its trimmed text is stored as it is. */
  lemma TrimmedField(x: Option<string>, lo: nat, hi: nat)
    requires 1 <= lo <= TrimmedLength(x) <= hi
    ensures x.Some? && !AllWhitespace(x.value)
    ensures StoredText(Text(Trim(x.value)), lo, hi)
  {
    TrimIdempotent(x.value);
  }

  /** With a front, a back and a non-blank category, the insert binds the
      three trimmed texts and the difficulty. */
  lemma InsertedParams(front: Option<string>, back: Option<string>, category: Option<string>, difficulty: int)
    requires front.Some? && back.Some? && category.Some? && !AllWhitespace(category.value)
    ensures InsertStatement(front, back, category, difficulty) == Success(Statement(InsertQuery,
      [Text(Trim(front.value)), Text(Trim(back.value)), Text(Trim(category.value)), Number(difficulty)]))
  {
  }

  /** Four parameters of the stored shape, one by one, make a stored card. */
  lemma StoredCardOf(front: Value, back: Value, category: Value, difficulty: int)
    requires StoredText(front, 3, 500) && StoredText(back, 1, 1000) && StoredText(category, 1, 50)
    requires difficulty != 0
    ensures StoredCard([front, back, category, Number(difficulty)])
  {
  }

  /** A card that passes validation is created with the stored-card shape. */
  lemma AcceptedIsStored(front: Option<string>, back: Option<string>, category: Option<string>, difficulty: int)
    requires Acceptable(front, back, category) && difficulty != 0
    ensures InsertStatement(front, back, category, difficulty).Success?
    ensures StoredCard(InsertStatement(front, back, category, difficulty).value.params)
  {
    TrimmedField(front, 3, 500);
    TrimmedField(back, 1, 1000);
    TrimmedField(category, 1, 50);
    InsertedParams(front, back, category, difficulty);
    StoredCardOf(Text(Trim(front.value)), Text(Trim(back.value)), Text(Trim(category.value)), difficulty);
  }

  /** `addFlashcard`: default the difficulty, validate, and either redirect
      home with the messages and the submitted values, or create the card. */
  method AddFlashcard(front: Option<string>, back: Option<string>, category: Option<string>, parsedDifficulty: Option<int>)
    returns (o: SubmitOutcome)
    ensures o.Write? <==> Acceptable(front, back, category)
    ensures o.RedirectWithErrors? ==>
      && ValidationErrors(front, back, category) != []
      && ValuesOf(o.pairs, "errors") == Wordings(ValidationErrors(front, back, category))
      && ValuesOf(o.pairs, "difficulty") == [IntToDecimal(DefaultDifficulty(parsedDifficulty))]
      && o.pairs == RedirectPairs(Wordings(ValidationErrors(front, back, category)), front, back, category,
                                  DefaultDifficulty(parsedDifficulty))
    ensures o.Write? ==>
      && Success(o.statement) == InsertStatement(front, back, category, DefaultDifficulty(parsedDifficulty))
      && StoredCard(o.statement.params)
  {
    var difficulty := DefaultDifficulty(parsedDifficulty);
    var errors := ValidateFlashcardInput(front, back, category);
    if |errors| > 0 {
      RedirectRoundTrip(Wordings(errors), front, back, category, difficulty);
      return RedirectWithErrors(RedirectPairs(Wordings(errors), front, back, category, difficulty));
    }
    AcceptedIsStored(front, back, category, difficulty);
    o := Write(InsertStatement(front, back, category, difficulty).value);
  }

  /** `updateFlashcard`: as `addFlashcard`, but the card with id `id` is
      overwritten. */
  method UpdateFlashcard(id: int, front: Option<string>, back: Option<string>, category: Option<string>,
                         parsedDifficulty: Option<int>)
    returns (o: SubmitOutcome)
    ensures o.Write? <==> Acceptable(front, back, category)
    ensures o.RedirectWithErrors? ==>
      && ValidationErrors(front, back, category) != []
      && ValuesOf(o.pairs, "errors") == Wordings(ValidationErrors(front, back, category))
      && ValuesOf(o.pairs, "difficulty") == [IntToDecimal(DefaultDifficulty(parsedDifficulty))]
      && o.pairs == RedirectPairs(Wordings(ValidationErrors(front, back, category)), front, back, category,
                                  DefaultDifficulty(parsedDifficulty))
    ensures o.Write? ==>
      && Success(o.statement) == UpdateStatement(id, front, back, category, DefaultDifficulty(parsedDifficulty))
      && StoredCard(o.statement.params)
      && o.statement.params[4] == Number(id)
  {
    var difficulty := DefaultDifficulty(parsedDifficulty);
    var errors := ValidateFlashcardInput(front, back, category);
    if |errors| > 0 {
      RedirectRoundTrip(Wordings(errors), front, back, category, difficulty);
      return RedirectWithErrors(RedirectPairs(Wordings(errors), front, back, category, difficulty));
    }
    AcceptedIsStored(front, back, category, difficulty);
    WriteArguments(id, front, back, category, difficulty);
    o := Write(UpdateStatement(id, front, back, category, difficulty).value);
  }
}
