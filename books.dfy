/**
 * The book-details page script: HTML escaping of review comments, the star
 * rating string, and what the reviews section shows for a server response.
 */
module Books {
  import opened Wrappers

  // ---------------------------------------------------------------- escaping

  /** `s.replace(/c/g, rep)`: every occurrence of `c`, left to right, becomes `rep`. */
  function ReplaceAll(s: string, c: char, rep: string): (r: string)
    ensures c !in s ==> r == s
    ensures forall x :: x in r ==> (x in s && x != c) || x in rep
  {
    if s == [] then [] else (if s[0] == c then rep else [s[0]]) + ReplaceAll(s[1..], c, rep)
  }

  /** `escapeHTML`: four global replacements, `&` first. */
  function EscapeHtml(s: string): string {
    ReplaceAll(ReplaceAll(ReplaceAll(ReplaceAll(s, '&', "&amp;"), '<', "&lt;"), '>', "&gt;"), '"', "&quot;")
  }

  predicate IsSpecial(c: char) {
    c == '&' || c == '<' || c == '>' || c == '"'
  }

  /** What one character of the input becomes. */
  function EscapeChar(c: char): (r: string)
    ensures |r| >= 1 && (IsSpecial(c) <==> r != [c])
    ensures !IsSpecial(c) ==> |r| == 1
    ensures |r| > 1 ==> r[0] == '&'
  {
    match c
    case '&' => "&amp;"
    case '<' => "&lt;"
    case '>' => "&gt;"
    case '"' => "&quot;"
    case _ => [c]
  }

  /** The reference definition: escape character by character. */
  function EscapeEach(s: string): string {
    if s == [] then [] else EscapeChar(s[0]) + EscapeEach(s[1..])
  }

  lemma {:induction false} ReplaceAllAppend(a: string, b: string, c: char, rep: string)
    ensures ReplaceAll(a + b, c, rep) == ReplaceAll(a, c, rep) + ReplaceAll(b, c, rep)
  {
    if a == [] {
      assert a + b == b;
    } else {
      assert (a + b)[1..] == a[1..] + b;
      ReplaceAllAppend(a[1..], b, c, rep);
    }
  }

  lemma {:induction false} EscapeHtmlAppend(a: string, b: string)
    ensures EscapeHtml(a + b) == EscapeHtml(a) + EscapeHtml(b)
  {
    var a1, b1 := ReplaceAll(a, '&', "&amp;"), ReplaceAll(b, '&', "&amp;");
    ReplaceAllAppend(a, b, '&', "&amp;");
    var a2, b2 := ReplaceAll(a1, '<', "&lt;"), ReplaceAll(b1, '<', "&lt;");
    ReplaceAllAppend(a1, b1, '<', "&lt;");
    var a3, b3 := ReplaceAll(a2, '>', "&gt;"), ReplaceAll(b2, '>', "&gt;");
    ReplaceAllAppend(a2, b2, '>', "&gt;");
    ReplaceAllAppend(a3, b3, '"', "&quot;");
  }

  lemma ReplaceAllSingle(c: char, x: char, rep: string)
    ensures ReplaceAll([c], x, rep) == if c == x then rep else [c]
  {
    assert [c][1..] == [];
  }

  lemma EscapeHtmlChar(c: char)
    ensures EscapeHtml([c]) == EscapeChar(c)
  {
    ReplaceAllSingle(c, '&', "&amp;");
    if c == '&' {
      assert '<' !in "&amp;" && '>' !in "&amp;" && '"' !in "&amp;";
    } else {
      ReplaceAllSingle(c, '<', "&lt;");
      if c == '<' {
        assert '>' !in "&lt;" && '"' !in "&lt;";
      } else {
        ReplaceAllSingle(c, '>', "&gt;");
        if c == '>' {
          assert '"' !in "&gt;";
        } else {
          ReplaceAllSingle(c, '"', "&quot;");
        }
      }
    }
  }

  /**
   * Because `&` is replaced first, the chained replacements never re-escape
   * an entity they produced: `escapeHTML` is the per-character mapping.
   */
  lemma {:induction false} EscapeHtmlIsPerCharacter(s: string)
    ensures EscapeHtml(s) == EscapeEach(s)
  {
    if s == [] {
    } else {
      assert s == [s[0]] + s[1..];
      EscapeHtmlAppend([s[0]], s[1..]);
      EscapeHtmlChar(s[0]);
      EscapeHtmlIsPerCharacter(s[1..]);
    }
  }

  predicate StartsWith(t: string, p: string) {
    |p| <= |t| && t[..|p|] == p
  }

  /** Reads entities back: the inverse of escaping. */
  function Unescape(t: string): string {
    if t == [] then []
    else if StartsWith(t, "&amp;") then "&" + Unescape(t[5..])
    else if StartsWith(t, "&lt;") then "<" + Unescape(t[4..])
    else if StartsWith(t, "&gt;") then ">" + Unescape(t[4..])
    else if StartsWith(t, "&quot;") then "\"" + Unescape(t[6..])
    else [t[0]] + Unescape(t[1..])
  }

  lemma UnescapeCons(c: char, rest: string)
    ensures Unescape(EscapeChar(c) + rest) == [c] + Unescape(rest)
  {
    var e := EscapeChar(c);
    var t := e + rest;
    assert t[..|e|] == e && t[|e|..] == rest;
    if c == '&' {
      assert StartsWith(t, "&amp;");
    } else if c == '<' {
      assert !StartsWith(t, "&amp;") by { assert t[1] == 'l'; }
      assert StartsWith(t, "&lt;");
    } else if c == '>' {
      assert !StartsWith(t, "&amp;") by { assert t[1] == 'g'; }
      assert !StartsWith(t, "&lt;") by { assert t[1] == 'g'; }
      assert StartsWith(t, "&gt;");
    } else if c == '"' {
      assert !StartsWith(t, "&amp;") by { assert t[1] == 'q'; }
      assert !StartsWith(t, "&lt;") by { assert t[1] == 'q'; }
      assert !StartsWith(t, "&gt;") by { assert t[1] == 'q'; }
      assert StartsWith(t, "&quot;");
    } else {
      assert t[0] == c && t[1..] == rest;
      assert !StartsWith(t, "&amp;") && !StartsWith(t, "&lt;") by { assert t[0] != '&'; }
      assert !StartsWith(t, "&gt;") && !StartsWith(t, "&quot;") by { assert t[0] != '&'; }
    }
  }

  lemma {:induction false} UnescapeEscapeEach(s: string)
    ensures Unescape(EscapeEach(s)) == s
  {
    if s != [] {
      UnescapeCons(s[0], EscapeEach(s[1..]));
      UnescapeEscapeEach(s[1..]);
      assert s == [s[0]] + s[1..];
    }
  }

  /** Round trip: escaping loses nothing. */
  lemma UnescapeEscapeHtml(s: string)
    ensures Unescape(EscapeHtml(s)) == s
  {
    EscapeHtmlIsPerCharacter(s);
    UnescapeEscapeEach(s);
  }

  /** `escapeHTML` is injective: distinct comments render as distinct markup. */
  lemma EscapeHtmlInjective(a: string, b: string)
    requires EscapeHtml(a) == EscapeHtml(b)
    ensures a == b
  {
    UnescapeEscapeHtml(a);
    UnescapeEscapeHtml(b);
  }

  lemma {:induction false} EscapeEachNoMarkup(s: string)
    ensures '<' !in EscapeEach(s) && '>' !in EscapeEach(s) && '"' !in EscapeEach(s)
  {
    if s != [] {
      EscapeEachNoMarkup(s[1..]);
    }
  }

  /** The output never contains `<`, `>` or `"`. */
  lemma EscapeHtmlNoMarkup(s: string)
    ensures '<' !in EscapeHtml(s) && '>' !in EscapeHtml(s) && '"' !in EscapeHtml(s)
  {
    EscapeHtmlIsPerCharacter(s);
    EscapeEachNoMarkup(s);
  }

  lemma {:induction false} EscapeEachLength(s: string)
    ensures |EscapeEach(s)| >= |s|
    ensures (exists i :: 0 <= i < |s| && IsSpecial(s[i])) ==> |EscapeEach(s)| > |s|
    ensures (forall i :: 0 <= i < |s| ==> !IsSpecial(s[i])) ==> EscapeEach(s) == s
  {
    if s != [] {
      EscapeEachLength(s[1..]);
      if exists i :: 0 <= i < |s| && IsSpecial(s[i]) {
        var i :| 0 <= i < |s| && IsSpecial(s[i]);
        if i > 0 {
          assert IsSpecial(s[1..][i - 1]);
        }
      }
      if forall i :: 0 <= i < |s| ==> !IsSpecial(s[i]) {
        assert forall i :: 0 <= i < |s| - 1 ==> s[1..][i] == s[i + 1];
        assert s == [s[0]] + s[1..];
      }
    }
  }

  /** Escaping changes a string exactly when it holds one of `& < > "`; `'` is left alone. */
  lemma EscapeHtmlUnchangedIff(s: string)
    ensures EscapeHtml(s) == s <==> forall i :: 0 <= i < |s| ==> !IsSpecial(s[i])
  {
    EscapeHtmlIsPerCharacter(s);
    EscapeEachLength(s);
  }

  // ---------------------------------------------------------------- stars

  function Repeat(c: char, n: nat): (r: string)
    ensures |r| == n && forall i :: 0 <= i < n ==> r[i] == c
  {
    if n == 0 then [] else [c] + Repeat(c, n - 1)
  }

  const FullStar: char := '★'
  const EmptyStar: char := '☆'

  /**
   * `renderStars` on an integer rating: `repeat` throws a RangeError on a
   * negative count, so only 0..5 render (`None` is the thrown error).
   */
  function RenderStars(rating: int): (r: Option<string>)
    ensures r.Some? <==> 0 <= rating <= 5
    ensures r.Some? ==> (|r.value| == 5
      && (forall i :: 0 <= i < rating ==> r.value[i] == FullStar)
      && (forall i :: rating <= i < 5 ==> r.value[i] == EmptyStar))
  {
    if 0 <= rating <= 5 then Some(Repeat(FullStar, rating) + Repeat(EmptyStar, 5 - rating)) else None
  }

  // ---------------------------------------------------------------- reviews

  datatype Review = Review(firstName: Option<string>, rating: int, comment: Option<string>)

  /** The JSON body of `/api/public/books/{id}/reviews`; the average is taken already rounded. */
  datatype ReviewsResponse = ReviewsResponse(reviews: Option<seq<Review>>, avgRating: int, count: Option<int>)

  datatype Summary =
    | CouldNotLoad
    | Summary(shownCount: int, average: Option<string>, noReviewsYet: bool)

  datatype Entry = Entry(name: string, stars: string, rating: int, comment: string)

  datatype ReviewsView = ReviewsView(summary: Summary, entries: seq<Entry>)

  /** JavaScript truthiness of an optional number. */
  predicate Truthy(n: Option<int>) {
    n.Some? && n.value != 0
  }

  /** `(reviews && reviews.length) ? reviews.slice(0, 5) : []`. */
  function LatestReviews(reviews: Option<seq<Review>>): (r: seq<Review>)
    ensures reviews.None? ==> r == []
    ensures reviews.Some? ==> (|r| == (if |reviews.value| < 5 then |reviews.value| else 5)
      && r == reviews.value[..|r|])
  {
    if reviews.Some? && |reviews.value| > 0 then
      (if |reviews.value| <= 5 then reviews.value else reviews.value[..5])
    else []
  }

  /** `r.firstName || "Anonymous"`. */
  function ReviewerName(firstName: Option<string>): (name: string)
    ensures name == "Anonymous" <==> firstName.None? || firstName.value == "" || firstName.value == "Anonymous"
    ensures firstName.Some? && firstName.value != "" ==> name == firstName.value
  {
    if firstName.Some? && firstName.value != "" then firstName.value else "Anonymous"
  }

  /** One review card; `None` when its stars cannot be rendered. */
  function EntryOf(r: Review): (e: Option<Entry>)
    ensures e.Some? <==> 0 <= r.rating <= 5
    ensures e.Some? ==> (e.value.name == ReviewerName(r.firstName) && e.value.rating == r.rating
      && e.value.comment == (if r.comment.Some? && r.comment.value != "" then EscapeHtml(r.comment.value) else ""))
    ensures e.Some? ==> Some(e.value.stars) == RenderStars(r.rating)
  {
    match RenderStars(r.rating)
    case None => None
    case Some(stars) =>
      Some(Entry(ReviewerName(r.firstName), stars,  r.rating,
                 if r.comment.Some? && r.comment.value != "" then EscapeHtml(r.comment.value) else ""))
  }

  /** `latestReviews.map(...)`: fails as a whole if any card fails. */
  function Entries(rs: seq<Review>): (es: Option<seq<Entry>>)
    ensures es.Some? <==> forall i :: 0 <= i < |rs| ==> 0 <= rs[i].rating <= 5
    ensures es.Some? ==> |es.value| == |rs| && forall i :: 0 <= i < |rs| ==> Some(es.value[i]) == EntryOf(rs[i])
  {
    if rs == [] then Some([])
    else
      var head, tail := EntryOf(rs[0]), Entries(rs[1..]);
      if head.Some? && tail.Some? then Some([head.value] + tail.value) else None
  }

  /** The summary block; `None` when the average's stars throw. */
  function SummaryOf(data: ReviewsResponse): (s: Option<Summary>)
    ensures s.Some? ==> s.value.Summary? && s.value.shownCount == (if data.count.Some? then data.count.value else 0)
    ensures s.Some? ==> (s.value.average.Some? <==> Truthy(data.count))
    ensures s.Some? ==> (s.value.noReviewsYet <==> !Truthy(data.count))
    ensures s.None? <==> Truthy(data.count) && RenderStars(data.avgRating).None?
    ensures s.Some? && s.value.average.Some? ==> s.value.average == RenderStars(data.avgRating)
  {
    var shown := if data.count.Some? then data.count.value else 0;
    if Truthy(data.count) then
      match RenderStars(data.avgRating)
      case None => None
      case Some(stars) => Some(Summary(shown, Some(stars), false))
    else Some(Summary(shown, None, true))
  }

  /**
   * `loadReviews` after the fetch: `None` is a failed request or body. A
   * failure anywhere shows "Could not load reviews." and leaves the list empty.
   */
  function LoadReviews(resp: Option<ReviewsResponse>): (v: ReviewsView)
    ensures v.summary.CouldNotLoad? ==> v.entries == []
    ensures v.summary.Summary? ==> (resp.Some? && Some(v.summary) == SummaryOf(resp.value)
      && Entries(LatestReviews(resp.value.reviews)) == Some(v.entries))
    ensures |v.entries| <= 5
    ensures v.summary.CouldNotLoad? <==>
      (resp.None? || SummaryOf(resp.value).None? || Entries(LatestReviews(resp.value.reviews)).None?)
  {
    match resp
    case None => ReviewsView(CouldNotLoad, [])
    case Some(data) =>
      match (SummaryOf(data), Entries(LatestReviews(data.reviews)))
      case (Some(s), Some(es)) => ReviewsView(s, es)
      case _ => ReviewsView(CouldNotLoad, [])
  }

  /**
   * The reviewer's name goes into the card as it is, unlike the comment:
   * a first name with markup reaches the page, the same text as a comment
   * does not.
   */
  lemma NameIsNotEscaped(rating: int)
    requires 0 <= rating <= 5
    ensures var e := EntryOf(Review(Some("<b>"), rating, Some("<b>")));
      e.Some? && e.value.name == "<b>" && '<' in e.value.name && '<' !in e.value.comment
  {
    EscapeHtmlNoMarkup("<b>");
  }

  /** The summary shows exactly one of the average line and "No reviews yet.". */
  lemma SummaryShowsOneLine(data: ReviewsResponse, v: ReviewsView)
    requires v == LoadReviews(Some(data)) && v.summary.Summary?
    ensures v.summary.average.Some? != v.summary.noReviewsYet
    ensures v.summary.noReviewsYet <==> data.count.None? || data.count.value == 0
  {
  }

  /** The cards are the first five reviews, in the order the server sent them. */
  lemma CardsFollowServerOrder(data: ReviewsResponse, i: int)
    requires LoadReviews(Some(data)).summary.Summary?
    requires 0 <= i < |LoadReviews(Some(data)).entries|
    ensures data.reviews.Some? && i < 5 && i < |data.reviews.value|
    ensures Some(LoadReviews(Some(data)).entries[i]) == EntryOf(data.reviews.value[i])
  {
  }
}
